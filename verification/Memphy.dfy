/** The physical devices of `mm-memphy.c`: a byte array with a list of free frames, updated in place.

    The ghost field `frames` is the array cut into pages; the free list is a sequence, head first. */
module Memphy {
  import opened PageEntry
  import opened Paging

  class Memphy {
    const storage: array<Byte>
    var freeFp: seq<int>
    ghost var frames: seq<Page>

    ghost predicate Valid()
      reads this, storage
    {
      && |frames| == storage.Length / PAGESZ
      && forall f, off :: 0 <= f < |frames| && 0 <= off < PAGESZ ==> storage[f * PAGESZ + off] == frames[f][off]
    }

    ghost function Dev(): Device
      reads this
    {
      Device(frames, freeFp)
    }

    /** `init_memphy`: zeroed storage, formatted. The list stays empty when not even one frame fits. */
    constructor (maxsz: nat)
      ensures Valid() && fresh(this) && fresh(storage) && storage.Length == maxsz
      ensures Dev() == Formatted(maxsz / PAGESZ)
    {
      storage := new Byte[maxsz](_ => 0);
      frames := seq(maxsz / PAGESZ, _ => seq(PAGESZ, _ => 0));
      freeFp := [];
      new;
      var ok := Format();
    }

    /** `MEMPHY_format`: the free list becomes 0, 1, 2, ... */
    method Format() returns (ok: bool)
      requires Valid()
      modifies this`freeFp
      ensures Valid() && ok == (storage.Length / PAGESZ > 0)
      ensures freeFp == if ok then UpTo(storage.Length / PAGESZ) else old(freeFp)
    {
      var numfp := storage.Length / PAGESZ;
      if numfp <= 0 {
        return false;
      }
      freeFp := [0];
      var iter := 1;
      assert UpTo(1) == UpTo(0) + [0];
      while iter < numfp
        invariant 1 <= iter <= numfp && freeFp == UpTo(iter)
      {
        freeFp := freeFp + [iter];
        iter := iter + 1;
      }
      return true;
    }

    /** `MEMPHY_get_freefp`. */
    method GetFreefp() returns (fpn: int, ok: bool)
      modifies this`freeFp
      ensures ok == (old(freeFp) != [])
      ensures ok ==> fpn == old(freeFp)[0] && freeFp == old(freeFp)[1..]
      ensures !ok ==> freeFp == old(freeFp)
    {
      if freeFp == [] {
        return -1, false;
      }
      fpn := freeFp[0];
      freeFp := freeFp[1..];
      ok := true;
    }

    /** `MEMPHY_put_freefp`. */
    method PutFreefp(fpn: int)
      modifies this`freeFp
      ensures freeFp == [fpn] + old(freeFp)
    {
      freeFp := [fpn] + freeFp;
    }

    /** `MEMPHY_read` of a random-access device. */
    method ReadCell(addr: int) returns (value: Byte)
      requires Valid() && 0 <= addr < |frames| * PAGESZ
      ensures value == frames[addr / PAGESZ][addr % PAGESZ]
    {
      assert addr == addr / PAGESZ * PAGESZ + addr % PAGESZ;
      value := storage[addr];
    }

    /** `MEMPHY_write` of a random-access device. */
    method WriteCell(addr: int, data: Byte)
      requires Valid() && 0 <= addr < |frames| * PAGESZ
      modifies this`frames, storage
      ensures Valid() && |frames| == |old(frames)|
      ensures frames == old(frames)[addr / PAGESZ := old(frames)[addr / PAGESZ][addr % PAGESZ := data]]
    {
      var f, off := addr / PAGESZ, addr % PAGESZ;
      storage[addr] := data;
      frames := frames[f := frames[f][off := data]];
    }

    /** `__swap_cp_page`, from this device to another one. */
    method CopyPageTo(srcfpn: int, dst: Memphy, dstfpn: int)
      requires Valid() && dst.Valid() && dst != this && dst.storage != storage
      requires 0 <= srcfpn < |frames| && 0 <= dstfpn < |dst.frames|
      modifies dst`frames, dst.storage
      ensures dst.Valid() && dst.frames == old(dst.frames)[dstfpn := frames[srcfpn]]
    {
      var cellidx := 0;
      while cellidx < PAGESZ
        invariant 0 <= cellidx <= PAGESZ && dst.Valid() && |dst.frames| == |old(dst.frames)|
        invariant forall f :: 0 <= f < |dst.frames| && f != dstfpn ==> dst.frames[f] == old(dst.frames)[f]
        invariant forall k :: 0 <= k < cellidx ==> dst.frames[dstfpn][k] == frames[srcfpn][k]
      {
        var data := ReadCell(srcfpn * PAGESZ + cellidx);
        dst.WriteCell(dstfpn * PAGESZ + cellidx, data);
        cellidx := cellidx + 1;
      }
      assert dst.frames[dstfpn] == frames[srcfpn];
    }
  }
}
