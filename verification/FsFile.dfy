/**
  File blocks: finding, allocating and clearing them, and truncation (fs/fs.c).
 */
module FsFile {
  import opened FsModel
  import opened FsOps
  import opened FsServer

  // ---- filling a hole, as seen from every file ----

  /** From s to s' at most block `i` of `loc` was filled: with a block that was free, and reads as zeros. */
  ghost predicate Fills(s: Fs, s': Fs, loc: Loc, i: int) {
    && |s'.blocks| == |s.blocks|
    && (forall b {:trigger InUse(s', b)} :: InUse(s, b) ==> InUse(s', b))
    && (forall x {:trigger Live(s', x)} :: Live(s, x) ==> Live(s', x))
    && SameHeads(s, s')
    && (forall x, k {:trigger PtrOf(s', x, k)} ::
          x != loc || k != i || PtrOf(s, x, k) != 0 ==> PtrOf(s', x, k) == PtrOf(s, x, k))
    && (forall x, k {:trigger Cell(s', x, k)} :: FileAt(s, x).kind == Reg ==> Cell(s', x, k) == Cell(s, x, k))
    && (PtrOf(s', loc, i) == PtrOf(s, loc, i) || (!InUse(s, PtrOf(s', loc, i)) && Cell(s', loc, i) == Zero))
  }

  /** ... and a block taken for it is in a slot. */
  ghost predicate Filled(s: Fs, s': Fs, loc: Loc, i: int) { Fills(s, s', loc, i) && NoLeak(s, s', 0) }

  lemma FillsThen(s: Fs, s1: Fs, s2: Fs, loc: Loc, i: int)
    requires Fills(s, s1, loc, i) && PtrOf(s1, loc, i) == PtrOf(s, loc, i) && Fills(s1, s2, loc, i)
    ensures Fills(s, s2, loc, i)
  {
    assert InUse(s, PtrOf(s2, loc, i)) ==> InUse(s1, PtrOf(s2, loc, i));
    hide FileAt, PtrOf, Cell, InUse, Live;
    forall x, k ensures x != loc || k != i || PtrOf(s, x, k) != 0 ==> PtrOf(s2, x, k) == PtrOf(s, x, k) {
      assert x != loc || k != i || PtrOf(s, x, k) != 0 ==> PtrOf(s1, x, k) == PtrOf(s, x, k);
    }
    forall x, k ensures FileAt(s, x).kind == Reg ==> Cell(s2, x, k) == Cell(s, x, k) {
      assert Cell(s1, x, k) == Cell(s, x, k) || FileAt(s, x).kind != Reg;
      assert SameHead(FileAt(s, x), FileAt(s1, x));
    }
    forall x ensures SameHead(FileAt(s, x), FileAt(s2, x)) { assert SameHead(FileAt(s, x), FileAt(s1, x)); }
    forall x | Live(s, x) ensures Live(s2, x) { assert Live(s1, x); }
    forall b | InUse(s, b) ensures InUse(s2, b) { assert InUse(s1, b); }
  }

  lemma FilledThen(s: Fs, s1: Fs, s2: Fs, loc: Loc, i: int)
    requires Filled(s, s1, loc, i) && PtrOf(s1, loc, i) == PtrOf(s, loc, i) && Filled(s1, s2, loc, i)
    ensures Filled(s, s2, loc, i)
  {
    hide Fills, PtrOf, NoLeak;
    FillsThen(s, s1, s2, loc, i);
    LeakThen(s, s1, s2, 0);
  }

  lemma Unfilled(s: Fs, loc: Loc, i: int)
    ensures Filled(s, s, loc, i)
  {}

  lemma LiveKept(s: Fs, s': Fs, ind: int, x: Loc)
    requires BlocksKeep(s, s', ind) && Live(s, x) && (ind != 0 && InUse(s, ind) ==> !s.blocks[ind].Recs?)
    ensures Live(s', x)
  {
    if x.At? { assert InUse(s', x.blk) && s'.blocks[x.blk].Recs?; }
  }

  /** Taking a block fills nothing yet. */
  lemma AllocFilled(s: Fs, owner: Owner, p: int, loc: Loc, i: int)
    requires Inv(s, owner) && 0 <= p < |s.blocks| && s.free[p]
    ensures Fills(s, AllocBlk(s, p), loc, i) && PtrOf(AllocBlk(s, p), loc, i) == PtrOf(s, loc, i)
    ensures NoLeak(s, AllocBlk(s, p), p)
    ensures forall x {:trigger FileAt(AllocBlk(s, p), x)} :: FileAt(AllocBlk(s, p), x) == FileAt(s, x)
  {
    AllocInv(s, owner, p);
    AllocAt(s, p);
    LeakSame(s, AllocBlk(s, p), p);
    assert forall x :: Live(s, x) ==> Live(AllocBlk(s, p), x);
    hide Inv, FileAt, PtrOf, Cell;
  }

  /** A spare block in an empty slot, seen from before it was taken. */
  lemma FillSpare(s: Fs, s2: Fs, o2: Owner, loc: Loc, i: int, p: int)
    requires FillReq(s2, o2, loc, i) && Spare(s2, p) && PtrOf(s2, loc, i) == 0
    requires Fills(s, s2, loc, i) && PtrOf(s, loc, i) == 0 && !InUse(s, p)
    ensures Fills(s, Fill(s2, loc, i, p), loc, i) && PtrOf(Fill(s2, loc, i, p), loc, i) == p
  {
    var s' := Fill(s2, loc, i, p);
    FillView(s2, o2, loc, i, p);
    FillBlocks(s2, o2, loc, i, p);
    assert IndCell(s2, loc).Zero? || IndCell(s2, loc).Index?;
    assert p != 0 && s'.blocks[p] == Zero by { assert Ptr(s2, Ind(loc)) != p; assert !s2.blocks[p].Recs?; }
    hide Inv, Fill, FileAt, Ptr, PtrOf, CanFill, Unreferenced;
    forall x, k
      ensures FileAt(s, x).kind == Reg ==> Cell(s', x, k) == Cell(s, x, k)
      ensures x != loc || k != i || PtrOf(s, x, k) != 0 ==> PtrOf(s', x, k) == PtrOf(s, x, k)
    {
      FillCell(s2, o2, loc, i, p, x, k);
      assert SameHead(FileAt(s, x), FileAt(s2, x));
      assert Cell(s2, x, k) == Cell(s, x, k) || FileAt(s, x).kind != Reg;
    }
    forall x ensures SameHead(FileAt(s, x), FileAt(s', x)) {
      assert SameHead(FileAt(s, x), FileAt(s2, x));
      assert x != loc ==> FileAt(s', x) == FileAt(s2, x);
    }
    forall x | Live(s, x) ensures Live(s', x) {
      assert Live(s2, x);
      LiveKept(s2, s', Ptr(s2, Ind(loc)), x);
    }
    forall b | InUse(s, b) ensures InUse(s', b) { assert InUse(s2, b); }
  }

  /** alloc_block, then its number stored in an empty slot. */
  lemma FillNew(s: Fs, owner: Owner, loc: Loc, i: int, p: int)
    requires Inv(s, owner) && CanFill(s, loc, i) && PtrOf(s, loc, i) == 0 && 0 <= p < |s.blocks| && s.free[p]
    ensures var s1 := AllocBlk(s, p);
            && SlotOf(s1, loc, i) == SlotOf(s, loc, i)
            && CanSet(s1, SlotOf(s1, loc, i)) && FillReq(s1, owner, loc, i) && Spare(s1, p)
            && Inv(Fill(s1, loc, i, p), Own(owner, SlotOf(s1, loc, i), p))
            && PtrOf(Fill(s1, loc, i, p), loc, i) == p && Filled(s, Fill(s1, loc, i, p), loc, i)
  {
    var s1 := AllocBlk(s, p);
    AllocInv(s, owner, p);
    AllocFilled(s, owner, p, loc, i);
    assert FileAt(s1, loc) == FileAt(s, loc) && Live(s1, loc);
    AllocAt(s, p);
    assert Ptr(s1, Ind(loc)) == Ptr(s, Ind(loc));
    CanFillCanSet(s1, owner, loc, i);
    LeakFill(s, s1, SlotOf(s1, loc, i), p);
    hide Inv, FileAt, Ptr, PtrOf, Own, Fills, NoLeak;
    FillInv(s1, owner, loc, i, p);
    FillSpare(s, s1, owner, loc, i, p);
  }

  lemma IndNew(s: Fs, owner: Owner, loc: Loc, i: int, p: int)
    requires Inv(s, owner) && Named(s, loc) && Ptr(s, Ind(loc)) == 0 && 0 <= p < |s.blocks| && s.free[p]
    ensures var s1 := AllocBlk(s, p);
            && CanSet(s1, Ind(loc)) && IndReq(s1, owner, loc, p)
            && Inv(SetPtr(s1, Ind(loc), p), Own(owner, Ind(loc), p))
            && Filled(s, SetPtr(s1, Ind(loc), p), loc, i)
            && PtrOf(SetPtr(s1, Ind(loc), p), loc, i) == PtrOf(s, loc, i)
            && Ptr(SetPtr(s1, Ind(loc), p), Ind(loc)) == p
  {
    var s1 := AllocBlk(s, p);
    AllocInv(s, owner, p);
    AllocAt(s, p);
    assert Named(s1, loc) && Ptr(s1, Ind(loc)) == 0;
    LiveBlock(s1, owner, loc);
    forall k | k >= NDIRECT ensures PtrOf(s1, loc, k) == 0 { assert !InUse(s1, 0); }
    var s2 := SetPtr(s1, Ind(loc), p);
    IndInv(s1, owner, loc, p);
    IndView(s1, owner, loc, p);
    assert Ptr(s2, Ind(loc)) == p;
    LeakSame(s, s1, p);
    LeakFill(s, s1, Ind(loc), p);
    hide Inv, SetPtr, FileAt, Ptr, PtrOf, Own;
    forall x, k
      ensures FileAt(s, x).kind == Reg ==> Cell(s2, x, k) == Cell(s, x, k)
      ensures PtrOf(s2, x, k) == PtrOf(s, x, k)
    {
      IndCells(s1, owner, loc, p, x, k);
      assert FileAt(s1, x) == FileAt(s, x) && PtrOf(s1, x, k) == PtrOf(s, x, k) && Cell(s1, x, k) == Cell(s, x, k);
    }
    forall x ensures SameHead(FileAt(s, x), FileAt(s2, x)) { assert FileAt(s1, x) == FileAt(s, x); }
    forall x | Live(s, x) ensures Live(s2, x) { LiveKept(s1, s2, 0, x); }
  }

  // ---- the operations ----

  /** A file block may be allocated only within the file's size. */
  ghost predicate MayAlloc(s: Fs, loc: Loc, i: int) { Named(s, loc) && i < Cap(FileAt(s, loc)) }

  predicate HasInd(s: Fs, loc: Loc, i: int) { i < NDIRECT || Ptr(s, Ind(loc)) != 0 }

  /** The indirect block of a file that has none. */
  method AllocIndirect(m: Server, loc: Loc, ghost i: int) returns (r: int)
    requires m.Valid() && m.Handle(loc) && Named(m.V(), loc) && Ptr(m.V(), Ind(loc)) == 0
    modifies m
    ensures FreeCount(m.free) >= FreeCount(old(m.free)) - 1
    ensures m.Valid() && m.Handle(loc) && old(m.cache.Keys) <= m.cache.Keys
    ensures r < 0 ==> m.V() == old(m.V()) && r == -E_NO_DISK && NoFree(m.V())
    ensures r >= 0 ==> r == Ptr(m.V(), Ind(loc)) != 0
    ensures Filled(old(m.V()), m.V(), loc, i) && PtrOf(m.V(), loc, i) == PtrOf(old(m.V()), loc, i)
  {
    hide Inv, Filled, FileAt, Ptr, PtrOf, SetPtr, AllocBlk, CanSet, CanFill, Own;
    ghost var s := m.V();
    r := m.AllocBlock();
    if r < 0 {
      Unfilled(s, loc, i);
      return;
    }
    IndNew(s, m.owner, loc, i, r);
    m.SetSlot(Ind(loc), r);
    m.owner := Own(m.owner, Ind(loc), r);
    FilledLive(s, m.V(), loc, i, loc);
    assert r != 0 by { assert Spare(AllocBlk(s, r), r); }
  }

  /** file_block_walk: the slot of block `i`, with an indirect block allocated if need be. */
  method FileBlockWalk(m: Server, loc: Loc, i: int, alloc: bool) returns (r: int, t: Slot)
    requires m.Valid() && m.Handle(loc) && i >= 0 && (alloc ==> MayAlloc(m.V(), loc, i))
    modifies m
    ensures FreeCount(m.free) >= FreeCount(old(m.free)) - 1
    ensures m.Valid() && m.Handle(loc) && old(m.cache.Keys) <= m.cache.Keys
    ensures Filled(old(m.V()), m.V(), loc, i) && PtrOf(m.V(), loc, i) == PtrOf(old(m.V()), loc, i)
    ensures !alloc || HasInd(old(m.V()), loc, i) || r < 0 ==> m.V() == old(m.V())
    ensures r == 0 || r == -E_INVAL || r == -E_NOT_FOUND || r == -E_NO_DISK
    ensures r == -E_INVAL <==> i >= NINDIRECT
    ensures r == -E_NOT_FOUND <==> i < NINDIRECT && !HasInd(m.V(), loc, i) && !alloc
    ensures r == -E_NO_DISK ==> i < NINDIRECT && !HasInd(m.V(), loc, i) && NoFree(m.V())
    ensures r == 0 ==> t == SlotOf(m.V(), loc, i) && HasInd(m.V(), loc, i) && CanSet(m.V(), t)
    ensures r == 0 && t.Entry? ==> t.blk in m.cache
  {
    hide Inv, Filled, FileAt;
    Unfilled(m.V(), loc, i);
    m.Handled(loc);
    t := Direct(loc, i);
    if i < NDIRECT {
      CanSetDirect(m.V(), m.owner, loc, i);
      return 0, t;
    } else if i < NINDIRECT {
      var ind := m.GetSlot(Ind(loc));
      if ind == 0 {
        if !alloc { return -E_NOT_FOUND, t; }
        r := AllocIndirect(m, loc, i);
        if r < 0 { return; }
        ind := r;
      }
      CanSetEntry(m.V(), m.owner, loc, i);
      m.ReadBlock(ind);
      return 0, Entry(ind, i);
    } else {
      return -E_INVAL, t;
    }
  }

  lemma FilledLive(s: Fs, s': Fs, loc: Loc, i: int, x: Loc)
    requires Filled(s, s', loc, i) && Live(s, x)
    ensures Live(s', x)
  {}

  lemma CanSetDirect(s: Fs, owner: Owner, loc: Loc, i: int)
    requires Inv(s, owner) && Live(s, loc) && 0 <= i < NDIRECT
    ensures CanSet(s, Direct(loc, i))
  {
    LiveBlock(s, owner, loc);
    if loc.At? { assert BlockOk(s.blocks[loc.blk]); }
  }

  lemma CanSetEntry(s: Fs, owner: Owner, loc: Loc, i: int)
    requires Inv(s, owner) && Ptr(s, Ind(loc)) != 0 && NDIRECT <= i < NINDIRECT
    ensures InUse(s, Ptr(s, Ind(loc))) && CanSet(s, SlotOf(s, loc, i))
  {
    assert IndCell(s, loc).Zero? || IndCell(s, loc).Index?;
    assert BlockOk(s.blocks[Ptr(s, Ind(loc))]);
  }

  /** A block number at or past NINDIRECT is never found, and one in use is in use. */
  lemma PtrInRange(s: Fs, owner: Owner, loc: Loc, i: int)
    requires Inv(s, owner)
    ensures i >= NINDIRECT || (i >= NDIRECT && Ptr(s, Ind(loc)) == 0) ==> PtrOf(s, loc, i) == 0
    ensures PtrOf(s, loc, i) != 0 ==> InUse(s, PtrOf(s, loc, i))
  {
    if i >= NDIRECT && InUse(s, Ptr(s, Ind(loc))) { assert BlockOk(s.blocks[Ptr(s, Ind(loc))]); }
  }

  /** alloc_block into the empty slot `t` of block `i`. */
  method FillHole(m: Server, loc: Loc, i: int, t: Slot) returns (r: int)
    requires m.Valid() && m.Handle(loc) && CanFill(m.V(), loc, i)
    requires PtrOf(m.V(), loc, i) == 0 && t == SlotOf(m.V(), loc, i) && (t.Entry? ==> t.blk in m.cache)
    modifies m
    ensures FreeCount(m.free) >= FreeCount(old(m.free)) - 1
    ensures m.Valid() && m.Handle(loc) && old(m.cache.Keys) <= m.cache.Keys
    ensures Filled(old(m.V()), m.V(), loc, i)
    ensures r >= 0 ==> r == PtrOf(m.V(), loc, i) != 0
    ensures r < 0 ==> r == -E_NO_DISK && NoFree(m.V()) && PtrOf(m.V(), loc, i) == 0
  {
    hide Inv, Filled, FileAt, Ptr, PtrOf, SetPtr, AllocBlk, CanSet, CanFill, Own;
    ghost var s := m.V();
    r := m.AllocBlock();
    if r < 0 {
      Unfilled(s, loc, i);
      return;
    }
    FillNew(s, m.owner, loc, i, r);
    m.SetSlot(t, r);
    m.owner := Own(m.owner, t, r);
    FilledLive(s, m.V(), loc, i, loc);
    assert r != 0 by { assert Spare(AllocBlk(s, r), r); }
  }

  /** file_map_block: the block of file block `i`; with `alloc`, one is found unless the disk is full. */
  method FileMapBlock(m: Server, loc: Loc, i: int, alloc: bool) returns (r: int, bno: int)
    requires m.Valid() && m.Handle(loc) && i >= 0 && (alloc ==> MayAlloc(m.V(), loc, i))
    modifies m
    ensures FreeCount(m.free) >= FreeCount(old(m.free)) - 2
    ensures m.Valid() && m.Handle(loc) && old(m.cache.Keys) <= m.cache.Keys
    ensures Filled(old(m.V()), m.V(), loc, i)
    ensures PtrOf(old(m.V()), loc, i) != 0 ==> r == 0
    ensures PtrOf(old(m.V()), loc, i) != 0 || !alloc ==> m.V() == old(m.V())
    ensures r == 0 ==> bno == PtrOf(m.V(), loc, i) != 0 && InUse(m.V(), bno)
    ensures r != 0 ==> PtrOf(m.V(), loc, i) == 0
    ensures r == 0 || r == -E_INVAL || (!alloc && r == -E_NOT_FOUND) || (alloc && r == -E_NO_DISK && NoFree(m.V()))
    ensures r == -E_INVAL <==> i >= NINDIRECT
  {
    hide Inv, Filled, FileAt, Ptr, CanSet;
    var t: Slot;
    PtrInRange(m.V(), m.owner, loc, i);
    bno := 0;
    r, t := FileBlockWalk(m, loc, i, alloc);
    if r < 0 { return; }
    ghost var s1 := m.V();
    var p := m.GetSlot(t);
    if p == 0 {
      if !alloc { return -E_NOT_FOUND, 0; }
      FilledHead(old(m.V()), s1, loc, i);
      r := FillHole(m, loc, i, t);
      FilledThen(old(m.V()), s1, m.V(), loc, i);
      if r < 0 { return; }
      p := r;
    }
    PtrInRange(m.V(), m.owner, loc, i);
    return 0, p;
  }

  lemma FilledHead(s: Fs, s': Fs, loc: Loc, i: int)
    requires Filled(s, s', loc, i) && Live(s, loc)
    ensures SameHead(FileAt(s, loc), FileAt(s', loc)) && (Named(s, loc) ==> Named(s', loc)) && Live(s', loc)
  {}

  /** file_get_block: block `i` is there and cached, unless it is out of range or the disk is full. */
  method FileGetBlock(m: Server, loc: Loc, i: int) returns (r: int, bno: int)
    requires m.Valid() && m.Handle(loc) && i >= 0 && MayAlloc(m.V(), loc, i)
    modifies m
    ensures FreeCount(m.free) >= FreeCount(old(m.free)) - 2
    ensures m.Valid() && m.Handle(loc) && old(m.cache.Keys) <= m.cache.Keys
    ensures Filled(old(m.V()), m.V(), loc, i)
    ensures PtrOf(old(m.V()), loc, i) != 0 ==> r == 0 && m.V() == old(m.V())
    ensures r == 0 ==> bno == PtrOf(m.V(), loc, i) != 0 && InUse(m.V(), bno) && bno in m.cache
    ensures r != 0 ==> PtrOf(m.V(), loc, i) == 0 && (r == -E_INVAL || (r == -E_NO_DISK && NoFree(m.V())))
    ensures r == -E_INVAL <==> i >= NINDIRECT
  {
    hide Inv, Filled, FileAt;
    r, bno := FileMapBlock(m, loc, i, true);
    if r < 0 { return; }
    m.ReadBlock(bno);
  }
}
