/** The page directory of one process, updated in place through `pte_set_fpn` and `pte_set_swap`. */
module PageTable {
  import opened Bits
  import opened PageEntry
  import Pte

  /** The page directory: an array of packed 32-bit entries. `entries` is what they say. */
  class PageTable {
    const pgd: array<Word>
    ghost var entries: seq<Entry>

    static ghost predicate Says(pte: Word, e: Entry) {
      Pte.Decode(pte) == e && (!e.Unmapped? ==> Pte.FpnField(pte) as int == FrameField(e))
    }

    ghost predicate Valid()
      reads this, pgd
    {
      pgd.Length == MAX_PGN && |entries| == MAX_PGN && forall p :: 0 <= p < MAX_PGN ==> Says(pgd[p], entries[p])
    }

    constructor ()
      ensures Valid() && fresh(this) && fresh(pgd) && entries == seq(MAX_PGN, _ => Unmapped)
    {
      pgd := new Word[MAX_PGN](_ => 0);
      entries := seq(MAX_PGN, _ => Unmapped);
    }

    /** `pte_set_fpn`. */
    method SetFpn(pgn: int, fpn: int)
      requires Valid() && 0 <= pgn < MAX_PGN && 0 <= fpn < MAX_FRAMES
      modifies this, pgd
      ensures Valid() && entries == old(entries)[pgn := Resident(fpn)]
    {
      Pte.DecodeSetFpn(pgd[pgn], fpn);
      pgd[pgn] := Pte.SetFpn(pgd[pgn], fpn as Word);
      entries := entries[pgn := Resident(fpn)];
    }

    /** `pte_set_swap` for swap device 0. */
    method SetSwap(pgn: int, swpoff: int)
      requires Valid() && 0 <= pgn < MAX_PGN && 0 <= swpoff < MAX_SWAP_FRAMES
      modifies this, pgd
      ensures Valid() && entries == old(entries)[pgn := Swapped(swpoff)]
    {
      Pte.DecodeSetSwap(pgd[pgn], 0, swpoff);
      Pte.FpnFieldSetSwap(pgd[pgn], swpoff);
      pgd[pgn] := Pte.SetSwap(pgd[pgn], 0, swpoff as Word);
      entries := entries[pgn := Swapped(swpoff)];
    }

    method IsPresent(pgn: int) returns (b: bool)
      requires Valid() && 0 <= pgn < MAX_PGN
      ensures b == !entries[pgn].Unmapped?
    {
      assert Says(pgd[pgn], entries[pgn]);
      b := Pte.Present(pgd[pgn]);
    }

    method IsSwapped(pgn: int) returns (b: bool)
      requires Valid() && 0 <= pgn < MAX_PGN && !entries[pgn].Unmapped?
      ensures b == entries[pgn].Swapped?
    {
      assert Says(pgd[pgn], entries[pgn]);
      b := Pte.SwappedBit(pgd[pgn]);
    }

    method GetFpn(pgn: int) returns (fpn: int)
      requires Valid() && 0 <= pgn < MAX_PGN && !entries[pgn].Unmapped?
      ensures fpn == FrameField(entries[pgn])
    {
      assert Says(pgd[pgn], entries[pgn]);
      fpn := Pte.FpnField(pgd[pgn]) as int;
    }

    method GetSwp(pgn: int) returns (off: int)
      requires Valid() && 0 <= pgn < MAX_PGN && entries[pgn].Swapped?
      ensures off == entries[pgn].off
    {
      assert Says(pgd[pgn], entries[pgn]);
      off := Pte.SwpField(pgd[pgn]) as int;
    }
  }
}
