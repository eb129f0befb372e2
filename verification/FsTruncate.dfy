/**
  Clearing file blocks, truncation and the size of a file (fs/fs.c).
 */
module FsTruncate {
  import opened FsModel
  import opened FsOps
  import opened FsServer
  import opened FsFile

  /** file_clear_block as a change of state: the block is freed and its slot emptied. */
  function ClearBlk(s: Fs, loc: Loc, i: int): Fs
    requires |s.blocks| == |s.free|
  {
    var p := PtrOf(s, loc, i);
    if p == 0 || !InUse(s, p) || !CanSet(s, SlotOf(s, loc, i)) then s else FreeBlk(Fill(s, loc, i, 0), p)
  }

  /** No file's record or indirect block lies in a block the file holds. */
  lemma NotInside(s: Fs, owner: Owner, loc: Loc, i: int)
    requires Inv(s, owner) && PtrOf(s, loc, i) != 0
    ensures !In(loc, PtrOf(s, loc, i)) && Ptr(s, Ind(loc)) != PtrOf(s, loc, i)
  {
    var p := PtrOf(s, loc, i);
    assert owner[p] == Claim(SlotOf(s, loc, i), SlotDepth(owner, SlotOf(s, loc, i)));
    if i >= NDIRECT {
      var q := Ptr(s, Ind(loc));
      assert InUse(s, q);
      assert owner[q] == Claim(Ind(loc), SlotDepth(owner, Ind(loc)));
    }
    if Ptr(s, Ind(loc)) == p { Unique(s, owner, Ind(loc), SlotOf(s, loc, i)); }
  }

  /** What clearing the file blocks in [lo, hi) leaves. */
  ghost predicate Clears(s: Fs, loc: Loc, lo: int, hi: int, b: int) {
    b != 0 && exists k {:trigger PtrOf(s, loc, k)} :: lo <= k < hi && PtrOf(s, loc, k) == b
  }

  ghost predicate Lost(s: Fs, loc: Loc, lo: int, hi: int, x: Loc) { x.At? && Clears(s, loc, lo, hi, x.blk) }

  /** Exactly the blocks in [lo, hi) are freed, zeroed and gone from their slots. Records in a freed block
      are gone; every other file keeps its head, its blocks and their contents. */
  ghost predicate Cleared(s: Fs, s': Fs, loc: Loc, lo: int, hi: int) {
    && |s'.blocks| == |s.blocks| && |s'.free| == |s.free| == |s.blocks|
    && (forall b {:trigger s'.free[b]} :: 0 <= b < |s.free| ==> s'.free[b] == (s.free[b] || Clears(s, loc, lo, hi, b)))
    && (forall b {:trigger s'.blocks[b]} :: 0 <= b < |s.free| && Clears(s, loc, lo, hi, b) ==> s'.blocks[b] == Zero)
    && (forall x {:trigger FileAt(s', x)} ::
          if Lost(s, loc, lo, hi, x) then FileAt(s', x) == Blank
          else if x == loc then SameHead(FileAt(s, x), FileAt(s', x)) else FileAt(s', x) == FileAt(s, x))
    && (forall x {:trigger Ptr(s', Ind(x))} :: !Lost(s, loc, lo, hi, x) ==> Ptr(s', Ind(x)) == Ptr(s, Ind(x)))
    && (forall x, k {:trigger PtrOf(s', x, k)} ::
          PtrOf(s', x, k) == if Lost(s, loc, lo, hi, x) || (x == loc && lo <= k < hi) then 0 else PtrOf(s, x, k))
    && (forall x, k {:trigger Cell(s', x, k)} ::
          FileAt(s, x).kind == Reg && !Lost(s, loc, lo, hi, x) && (x != loc || k < lo || k >= hi) ==>
            Cell(s', x, k) == Cell(s, x, k))
    && (forall x {:trigger Live(s', x)} :: Live(s, x) && !Lost(s, loc, lo, hi, x) ==> Live(s', x))
    && !Lost(s, loc, lo, hi, loc)
  }

  /** One block: freed first and its slot emptied after, or the other way round. */
  lemma ClearInv(s: Fs, owner: Owner, loc: Loc, i: int)
    requires Inv(s, owner) && CanFill(s, loc, i) && PtrOf(s, loc, i) != 0
    ensures InUse(s, PtrOf(s, loc, i)) && FillReq(s, owner, loc, i) && !In(loc, PtrOf(s, loc, i))
    ensures Ptr(s, Ind(loc)) != PtrOf(s, loc, i)
    ensures Inv(Fill(s, loc, i, 0), owner) && Unreferenced(Fill(s, loc, i, 0), PtrOf(s, loc, i))
    ensures |Fill(s, loc, i, 0).blocks| == |s.blocks| && InUse(Fill(s, loc, i, 0), PtrOf(s, loc, i))
    ensures ClearBlk(s, loc, i) == FreeBlk(Fill(s, loc, i, 0), PtrOf(s, loc, i))
    ensures Inv(ClearBlk(s, loc, i), owner)
  {
    var p := PtrOf(s, loc, i);
    CanFillCanSet(s, owner, loc, i);
    assert InUse(s, p) && p >= Reserved(|s.blocks|);
    var s1 := Fill(s, loc, i, 0);
    NotInside(s, owner, loc, i);
    FillInv(s, owner, loc, i, 0);
    SetPtrAt(s, SlotOf(s, loc, i), 0);
    forall t ensures Ptr(s1, t) != p {
      if Ptr(s, t) == p { Unique(s, owner, t, SlotOf(s, loc, i)); }
    }
    hide Inv, Fill, Ptr, FileAt, CanSet, SetPtr, CanFill;
    FreeInv(s1, owner, p);
  }

  lemma ClearsOne(s: Fs, loc: Loc, i: int)
    ensures forall b {:trigger Clears(s, loc, i, i + 1, b)} :: Clears(s, loc, i, i + 1, b) <==>
      b == PtrOf(s, loc, i) != 0
  {
    assert PtrOf(s, loc, i) == PtrOf(s, loc, i);
    hide PtrOf;
  }

  lemma ClearCell(s: Fs, owner: Owner, loc: Loc, i: int, x: Loc, k: int)
    requires Inv(s, owner) && CanFill(s, loc, i) && PtrOf(s, loc, i) != 0
    ensures var s' := ClearBlk(s, loc, i); var gone := In(x, PtrOf(s, loc, i));
            && PtrOf(s', x, k) == (if gone || (x == loc && k == i) then 0 else PtrOf(s, x, k))
            && Ptr(s', Ind(x)) == (if gone then 0 else Ptr(s, Ind(x)))
            && (FileAt(s, x).kind == Reg && !gone && (x != loc || k != i) ==> Cell(s', x, k) == Cell(s, x, k))
            && (Live(s, x) && !gone ==> Live(s', x))
            && if gone then FileAt(s', x) == Blank
               else if x == loc then SameHead(FileAt(s, x), FileAt(s', x)) else FileAt(s', x) == FileAt(s, x)
  {
    ClearInv(s, owner, loc, i);
    hide ClearBlk;
    var p := PtrOf(s, loc, i);
    var s1 := Fill(s, loc, i, 0);
    FillView(s, owner, loc, i, 0);
    FillCell(s, owner, loc, i, 0, x, k);
    FreeCell(s1, owner, p, x, k);
    FreeView(s1, p);
    if Live(s, x) {
      FillBlocks(s, owner, loc, i, 0);
      assert IndCell(s, loc).Zero? || IndCell(s, loc).Index?;
      LiveKept(s, s1, Ptr(s, Ind(loc)), x);
    }
    assert Ptr(s1, Ind(x)) == Ptr(s, Ind(x));
    assert PtrOf(s1, x, k) == if x == loc && k == i then 0 else PtrOf(s, x, k);
    assert FileAt(FreeBlk(s1, p), x) == if In(x, p) then Blank else FileAt(s1, x);
    hide Inv, Fill, Ptr, FileAt, PtrOf, CanFill, Cell, FreeBlk;
  }

  lemma ClearView(s: Fs, owner: Owner, loc: Loc, i: int)
    requires Inv(s, owner) && CanFill(s, loc, i) && PtrOf(s, loc, i) != 0
    ensures Cleared(s, ClearBlk(s, loc, i), loc, i, i + 1)
  {
    var s' := ClearBlk(s, loc, i);
    ClearInv(s, owner, loc, i);
    FillBlocks(s, owner, loc, i, 0);
    ClearsOne(s, loc, i);
    hide Inv, Fill, Ptr, FileAt, PtrOf, CanFill, Cell, ClearBlk, CanSet, Clears;
    assert Lost(s, loc, i, i + 1, loc) == false;
    forall x, k
      ensures PtrOf(s', x, k) == if Lost(s, loc, i, i + 1, x) || (x == loc && k == i) then 0 else PtrOf(s, x, k)
      ensures FileAt(s, x).kind == Reg && !Lost(s, loc, i, i + 1, x) && (x != loc || k != i) ==>
                Cell(s', x, k) == Cell(s, x, k)
    { ClearCell(s, owner, loc, i, x, k); }
    forall x
      ensures if Lost(s, loc, i, i + 1, x) then FileAt(s', x) == Blank
              else if x == loc then SameHead(FileAt(s, x), FileAt(s', x)) else FileAt(s', x) == FileAt(s, x)
    { ClearCell(s, owner, loc, i, x, 0); }
    forall x | !Lost(s, loc, i, i + 1, x) ensures Ptr(s', Ind(x)) == Ptr(s, Ind(x)) && (Live(s, x) ==> Live(s', x))
    { ClearCell(s, owner, loc, i, x, 0); }
  }

  /** The source frees the block first and empties the slot after: the same. */
  lemma Commute(s: Fs, loc: Loc, i: int)
    requires |s.free| == |s.blocks| && CanSet(s, SlotOf(s, loc, i)) && InUse(s, PtrOf(s, loc, i))
    requires !In(loc, PtrOf(s, loc, i)) && Ptr(s, Ind(loc)) != PtrOf(s, loc, i)
    ensures var p := PtrOf(s, loc, i);
            CanSet(FreeBlk(s, p), SlotOf(s, loc, i)) &&
            SetPtr(FreeBlk(s, p), SlotOf(s, loc, i), 0) == FreeBlk(Fill(s, loc, i, 0), p)
  {
    var p := PtrOf(s, loc, i);
    var t := SlotOf(s, loc, i);
    var a, b := SetPtr(FreeBlk(s, p), t, 0), FreeBlk(Fill(s, loc, i, 0), p);
    assert a.blocks == b.blocks;
  }

  lemma ClearNothing(s: Fs, owner: Owner, loc: Loc, lo: int, hi: int)
    requires Inv(s, owner) && forall k {:trigger PtrOf(s, loc, k)} :: lo <= k < hi ==> PtrOf(s, loc, k) == 0
    ensures Cleared(s, s, loc, lo, hi)
  {
    hide PtrOf, Cell, Ptr, FileAt;
  }

  ghost predicate MoreReq(s: Fs, s1: Fs, s2: Fs, loc: Loc, lo: int, mid: int) {
    && Cleared(s, s1, loc, lo, mid) && lo <= mid && PtrOf(s1, loc, mid) != 0 && Cleared(s1, s2, loc, mid, mid + 1)
    && forall b {:trigger s2.blocks[b]} :: 0 <= b < |s2.free| && s1.free[b] ==> s2.blocks[b] == s1.blocks[b]
  }

  lemma ClearsMore(s: Fs, s1: Fs, s2: Fs, loc: Loc, lo: int, mid: int, b: int)
    requires MoreReq(s, s1, s2, loc, lo, mid)
    ensures Clears(s, loc, lo, mid + 1, b) <==> Clears(s, loc, lo, mid, b) || Clears(s1, loc, mid, mid + 1, b)
  {
    ClearsOne(s1, loc, mid);
    assert PtrOf(s1, loc, mid) == PtrOf(s, loc, mid);
    hide PtrOf;
  }

  lemma MoreCell(s: Fs, s1: Fs, s2: Fs, loc: Loc, lo: int, mid: int, x: Loc, k: int)
    requires MoreReq(s, s1, s2, loc, lo, mid)
    ensures var gone := Lost(s, loc, lo, mid + 1, x);
            && PtrOf(s2, x, k) == (if gone || (x == loc && lo <= k < mid + 1) then 0 else PtrOf(s, x, k))
            && (!gone ==> Ptr(s2, Ind(x)) == Ptr(s, Ind(x))) && (Live(s, x) && !gone ==> Live(s2, x))
            && (FileAt(s, x).kind == Reg && !gone && (x != loc || k < lo || k >= mid + 1) ==>
                 Cell(s2, x, k) == Cell(s, x, k))
            && if gone then FileAt(s2, x) == Blank
               else if x == loc then SameHead(FileAt(s, x), FileAt(s2, x)) else FileAt(s2, x) == FileAt(s, x)
  {
    if x.At? { ClearsMore(s, s1, s2, loc, lo, mid, x.blk); }
    hide Clears, PtrOf, Cell, Ptr, FileAt;
    assert PtrOf(s1, x, k) == if Lost(s, loc, lo, mid, x) || (x == loc && lo <= k < mid) then 0 else PtrOf(s, x, k);
    assert Live(s, x) && !Lost(s, loc, lo, mid, x) ==> Live(s1, x);
    hide Live;
    assert if Lost(s, loc, lo, mid, x) then FileAt(s1, x) == Blank
           else if x == loc then SameHead(FileAt(s, x), FileAt(s1, x)) else FileAt(s1, x) == FileAt(s, x);
  }

  lemma ClearMore(s: Fs, s1: Fs, s2: Fs, loc: Loc, lo: int, mid: int)
    requires MoreReq(s, s1, s2, loc, lo, mid)
    ensures Cleared(s, s2, loc, lo, mid + 1)
  {
    forall b
      ensures Clears(s, loc, lo, mid + 1, b) <==> Clears(s, loc, lo, mid, b) || Clears(s1, loc, mid, mid + 1, b)
    {
      ClearsMore(s, s1, s2, loc, lo, mid, b);
    }
    hide Clears, PtrOf, Cell, Ptr, FileAt;
    forall x, k
      ensures PtrOf(s2, x, k) ==
        if Lost(s, loc, lo, mid + 1, x) || (x == loc && lo <= k < mid + 1) then 0 else PtrOf(s, x, k)
      ensures FileAt(s, x).kind == Reg && !Lost(s, loc, lo, mid + 1, x) && (x != loc || k < lo || k >= mid + 1) ==>
                Cell(s2, x, k) == Cell(s, x, k)
    { MoreCell(s, s1, s2, loc, lo, mid, x, k); }
    forall x
      ensures if Lost(s, loc, lo, mid + 1, x) then FileAt(s2, x) == Blank
              else if x == loc then SameHead(FileAt(s, x), FileAt(s2, x)) else FileAt(s2, x) == FileAt(s, x)
    { MoreCell(s, s1, s2, loc, lo, mid, x, 0); }
    forall x | !Lost(s, loc, lo, mid + 1, x) ensures Ptr(s2, Ind(x)) == Ptr(s, Ind(x)) && (Live(s, x) ==> Live(s2, x))
    { MoreCell(s, s1, s2, loc, lo, mid, x, 0); }
  }

  /** file_clear_block. */
  method FileClearBlock(m: Server, loc: Loc, i: int) returns (r: int)
    requires m.Valid() && m.Handle(loc) && Named(m.V(), loc) && i >= 0
    modifies m
    ensures m.Valid() && m.Handle(loc) && Named(m.V(), loc) && old(m.cache.Keys) <= m.cache.Keys
    ensures m.V() == ClearBlk(old(m.V()), loc, i)
    ensures r == if i >= NINDIRECT then -E_INVAL else if HasInd(old(m.V()), loc, i) then 0 else -E_NOT_FOUND
    ensures PtrOf(old(m.V()), loc, i) == 0 ==> m.V() == old(m.V())
    ensures PtrOf(old(m.V()), loc, i) != 0 ==> Cleared(old(m.V()), m.V(), loc, i, i + 1)
  {
    ghost var s := m.V();
    PtrInRange(s, m.owner, loc, i);
    assert PtrOf(s, loc, i) == 0 ==> ClearBlk(s, loc, i) == s;
    hide Inv, FileAt, CanSet, ClearBlk, Ptr, PtrOf, Cleared, Filled, SetPtr, FreeBlk, Live, SlotOf, NoFree, HasInd;
    hide FreeCount;
    var t: Slot;
    r, t := FileBlockWalk(m, loc, i, false);
    if r < 0 { return; }
    var p := m.GetSlot(t);
    if p == 0 { return 0; }
    assert p == PtrOf(s, loc, i) by { assert t == SlotOf(s, loc, i); }
    FreeSlot(m, loc, i, t, p);
    return 0;
  }

  /** free_block(*ptr); *ptr = 0. */
  method FreeSlot(m: Server, loc: Loc, ghost i: int, t: Slot, p: int)
    requires m.Valid() && m.Handle(loc) && Named(m.V(), loc) && i >= 0
    requires p == PtrOf(m.V(), loc, i) != 0 && t == SlotOf(m.V(), loc, i) && (t.Entry? ==> t.blk in m.cache)
    modifies m
    ensures m.Valid() && m.Handle(loc) && Named(m.V(), loc) && old(m.cache.Keys) <= m.cache.Keys
    ensures m.V() == ClearBlk(old(m.V()), loc, i) && Cleared(old(m.V()), m.V(), loc, i, i + 1)
  {
    hide Inv, FileAt, CanSet, ClearBlk, Ptr, PtrOf, Cleared, SetPtr, FreeBlk, Live;
    ClearReady(m.V(), m.owner, loc, i);
    m.FreeBlock(p);
    m.SetSlot(t, 0);
  }

  lemma ClearReady(s: Fs, owner: Owner, loc: Loc, i: int)
    requires Inv(s, owner) && Named(s, loc) && PtrOf(s, loc, i) != 0 && i >= 0
    ensures InUse(s, PtrOf(s, loc, i)) && CanSet(FreeBlk(s, PtrOf(s, loc, i)), SlotOf(s, loc, i))
    ensures ClearBlk(s, loc, i) == SetPtr(FreeBlk(s, PtrOf(s, loc, i)), SlotOf(s, loc, i), 0)
    ensures Inv(ClearBlk(s, loc, i), owner) && Cleared(s, ClearBlk(s, loc, i), loc, i, i + 1)
    ensures Named(ClearBlk(s, loc, i), loc) && Live(ClearBlk(s, loc, i), loc)
  {
    WithinSize(s, owner, loc, i);
    ClearInv(s, owner, loc, i);
    Commute(s, loc, i);
    ClearView(s, owner, loc, i);
    hide Inv, FileAt, CanSet, Fill, ClearBlk, Ptr, Cleared, SetPtr, FreeBlk;
    ClearedLive(s, ClearBlk(s, loc, i), loc, i, i + 1);
  }

  lemma ClearFree(s: Fs, owner: Owner, loc: Loc, i: int)
    requires Inv(s, owner) && CanFill(s, loc, i) && PtrOf(s, loc, i) != 0
    ensures |ClearBlk(s, loc, i).blocks| == |s.blocks|
    ensures forall b :: 0 <= b < |s.free| && s.free[b] ==> ClearBlk(s, loc, i).blocks[b] == s.blocks[b]
  {
    ClearInv(s, owner, loc, i);
    FillBlocks(s, owner, loc, i, 0);
    assert CanSet(s, SlotOf(s, loc, i));
    assert !s.free[Ptr(s, Ind(loc))] || i < NDIRECT;
    hide Inv, SetPtr, Ptr, PtrOf, ClearBlk;
    FillFree(s, loc, i, 0);
  }

  lemma FillFree(s: Fs, loc: Loc, i: int, p: int)
    requires CanSet(s, SlotOf(s, loc, i)) && |s.free| == |s.blocks|
    ensures |Fill(s, loc, i, p).blocks| == |s.blocks|
    ensures forall b :: 0 <= b < |s.free| && s.free[b] ==> Fill(s, loc, i, p).blocks[b] == s.blocks[b]
  {}

  lemma ClearedLive(s: Fs, s': Fs, loc: Loc, lo: int, hi: int)
    requires Cleared(s, s', loc, lo, hi) && Live(s, loc)
    ensures Live(s', loc) && SameHead(FileAt(s, loc), FileAt(s', loc))
  {}

  lemma WithinSize(s: Fs, owner: Owner, loc: Loc, i: int)
    requires Inv(s, owner) && Named(s, loc) && PtrOf(s, loc, i) != 0 && i >= 0
    ensures CanFill(s, loc, i)
  {
    PtrInRange(s, owner, loc, i);
  }

  // ---- truncation ----

  function OldBlocks(size: int): int { size / BY2BLK + 1 }
  function NewBlocks(size: int): int { if size == 0 then 0 else size / BY2BLK + 1 }

  /** The loop of file_truncate. */
  method ClearRange(m: Server, loc: Loc, lo: int, hi: int)
    requires m.Valid() && m.Handle(loc) && Named(m.V(), loc) && 0 <= lo
    modifies m
    ensures m.Valid() && m.Handle(loc) && Named(m.V(), loc) && old(m.cache.Keys) <= m.cache.Keys
    ensures Cleared(old(m.V()), m.V(), loc, lo, if lo < hi then hi else lo)
  {
    hide Inv, Cleared, FileAt, PtrOf, Live;
    ClearNothing(m.V(), m.owner, loc, lo, lo);
    var bno := lo;
    while bno < hi
      invariant lo <= bno && (bno <= hi || bno == lo)
      invariant m.Valid() && m.Handle(loc) && Named(m.V(), loc) && old(m.cache.Keys) <= m.cache.Keys
      invariant Cleared(old(m.V()), m.V(), loc, lo, bno)
    {
      ghost var s1, o1 := m.V(), m.owner;
      var _ := FileClearBlock(m, loc, bno);
      if PtrOf(s1, loc, bno) == 0 {
        ClearedNone(old(m.V()), s1, loc, lo, bno);
      } else {
        WithinSize(s1, o1, loc, bno);
        ClearFree(s1, o1, loc, bno);
        ClearedFree(s1, m.V(), loc, bno, bno + 1);
        ClearMore(old(m.V()), s1, m.V(), loc, lo, bno);
      }
      bno := bno + 1;
    }
  }

  lemma ClearedFree(s: Fs, s': Fs, loc: Loc, lo: int, hi: int)
    requires Cleared(s, s', loc, lo, hi)
    ensures |s'.free| == |s.free| == |s.blocks| == |s'.blocks|
  {}

  lemma ClearedNone(s: Fs, s1: Fs, loc: Loc, lo: int, mid: int)
    requires Cleared(s, s1, loc, lo, mid) && lo <= mid && PtrOf(s1, loc, mid) == 0
    ensures Cleared(s, s1, loc, lo, mid + 1)
  {
    assert PtrOf(s, loc, mid) == 0;
    forall b ensures Clears(s, loc, lo, mid + 1, b) <==> Clears(s, loc, lo, mid, b) {
    }
    hide Clears, PtrOf, Cell, Ptr, FileAt, Live;
    forall x ensures Lost(s, loc, lo, mid + 1, x) <==> Lost(s, loc, lo, mid, x) {}
  }

  /** Freeing a file's empty indirect block. */
  ghost predicate Dropped(s: Fs, s': Fs, loc: Loc) {
    && |s'.blocks| == |s.blocks| && |s'.free| == |s.free| == |s.blocks|
    && (forall b {:trigger s'.free[b]} :: 0 <= b < |s.free| ==>
         s'.free[b] == (s.free[b] || (b == Ptr(s, Ind(loc)) && b != 0)))
    && (forall b {:trigger s'.blocks[b]} :: 0 <= b < |s.free| ==>
          && (b == Ptr(s, Ind(loc)) && b != 0 ==> s'.blocks[b] == Zero) && (s.free[b] ==> s'.blocks[b] == s.blocks[b]))
    && SameHead(FileAt(s, loc), FileAt(s', loc))
    && (forall x {:trigger FileAt(s', x)} :: x != loc ==> FileAt(s', x) == FileAt(s, x))
    && (forall x {:trigger Ptr(s', Ind(x))} :: Ptr(s', Ind(x)) == if x == loc then 0 else Ptr(s, Ind(x)))
    && (forall x, k {:trigger PtrOf(s', x, k)} :: PtrOf(s', x, k) == PtrOf(s, x, k))
    && (forall x, k {:trigger Cell(s', x, k)} :: FileAt(s, x).kind == Reg ==> Cell(s', x, k) == Cell(s, x, k))
    && (forall x {:trigger Live(s', x)} :: Live(s, x) ==> Live(s', x))
  }

  function DropBlk(s: Fs, loc: Loc): Fs
    requires CanSet(s, Ind(loc)) && |s.free| == |s.blocks|
  {
    if InUse(s, Ptr(s, Ind(loc))) then FreeBlk(SetPtr(s, Ind(loc), 0), Ptr(s, Ind(loc))) else s
  }

  lemma BlankPtr(s: Fs, x: Loc, k: int)
    requires FileAt(s, x) == Blank
    ensures PtrOf(s, x, k) == 0 && Ptr(s, Ind(x)) == 0
  {}

  lemma DropInv(s: Fs, owner: Owner, loc: Loc)
    requires IndReq(s, owner, loc, 0) && Ptr(s, Ind(loc)) != 0
    ensures InUse(s, Ptr(s, Ind(loc))) && InUse(SetPtr(s, Ind(loc), 0), Ptr(s, Ind(loc))) && !In(loc, Ptr(s, Ind(loc)))
    ensures Inv(SetPtr(s, Ind(loc), 0), owner) && Unreferenced(SetPtr(s, Ind(loc), 0), Ptr(s, Ind(loc)))
    ensures |SetPtr(s, Ind(loc), 0).free| == |SetPtr(s, Ind(loc), 0).blocks| == |s.blocks|
    ensures DropBlk(s, loc) == FreeBlk(SetPtr(s, Ind(loc), 0), Ptr(s, Ind(loc)))
    ensures Inv(DropBlk(s, loc), owner)
  {
    var p := Ptr(s, Ind(loc));
    var s1 := SetPtr(s, Ind(loc), 0);
    assert IndCell(s, loc).Zero? || IndCell(s, loc).Index?;
    assert InUse(s, p) && p >= Reserved(|s.blocks|);
    DropFree(s, loc);
    IndInv(s, owner, loc, 0);
    SetPtrAt(s, Ind(loc), 0);
    forall t ensures Ptr(s1, t) != p {
      if Ptr(s, t) == p { Unique(s, owner, t, Ind(loc)); }
    }
    hide Inv, SetPtr, Ptr, FileAt, CanSet, PtrOf;
    FreeInv(s1, owner, p);
  }

  lemma DropView(s: Fs, owner: Owner, loc: Loc)
    requires IndReq(s, owner, loc, 0) && Ptr(s, Ind(loc)) != 0
    ensures Dropped(s, DropBlk(s, loc), loc) && Inv(DropBlk(s, loc), owner)
  {
    var p := Ptr(s, Ind(loc));
    var s1 := SetPtr(s, Ind(loc), 0);
    var s2 := FreeBlk(s1, p);
    DropInv(s, owner, loc);
    IndView(s, owner, loc, 0);
    FreeView(s1, p);
    DropFree(s, loc);
    hide Inv, SetPtr, Ptr, FileAt, CanSet, PtrOf, Cell, DropBlk;
    forall x, k
      ensures PtrOf(s2, x, k) == PtrOf(s, x, k)
      ensures FileAt(s, x).kind == Reg ==> Cell(s2, x, k) == Cell(s, x, k)
    {
      DropCell(s, owner, loc, x, k);
    }
    forall x
      ensures x != loc ==> FileAt(s2, x) == FileAt(s, x)
      ensures Ptr(s2, Ind(x)) == if x == loc then 0 else Ptr(s, Ind(x))
      ensures Live(s, x) ==> Live(s2, x)
    { DropCell(s, owner, loc, x, 0); }
    assert SameHead(FileAt(s, loc), FileAt(s2, loc)) by { assert FileAt(s2, loc) == FileAt(s1, loc); }
  }

  lemma DropFree(s: Fs, loc: Loc)
    requires CanSet(s, Ind(loc)) && Live(s, loc) && |s.free| == |s.blocks|
    ensures var s1 := SetPtr(s, Ind(loc), 0);
            && s1.free == s.free && |s1.blocks| == |s.blocks|
            && forall b {:trigger s1.blocks[b]} :: 0 <= b < |s.free| && s.free[b] ==> s1.blocks[b] == s.blocks[b]
  {}

  lemma DropCell(s: Fs, owner: Owner, loc: Loc, x: Loc, k: int)
    requires IndReq(s, owner, loc, 0) && Ptr(s, Ind(loc)) != 0
    ensures var s2 := DropBlk(s, loc);
            && PtrOf(s2, x, k) == PtrOf(s, x, k) && Ptr(s2, Ind(x)) == (if x == loc then 0 else Ptr(s, Ind(x)))
            && (FileAt(s, x).kind == Reg ==> Cell(s2, x, k) == Cell(s, x, k))
            && (x != loc ==> FileAt(s2, x) == FileAt(s, x)) && (Live(s, x) ==> Live(s2, x))
  {
    var p := Ptr(s, Ind(loc));
    var s1 := SetPtr(s, Ind(loc), 0);
    DropInv(s, owner, loc);
    IndView(s, owner, loc, 0);
    IndCells(s, owner, loc, 0, x, k);
    FreeCell(s1, owner, p, x, k);
    FreeView(s1, p);
    assert PtrOf(s1, x, k) == PtrOf(s, x, k) && Ptr(s1, Ind(x)) == (if x == loc then 0 else Ptr(s, Ind(x)));
    assert FileAt(FreeBlk(s1, p), x) == if In(x, p) then Blank else FileAt(s1, x);
    assert Blank.indirect == 0 && Ptr(s, Ind(x)) == FileAt(s, x).indirect;
    assert IndCell(s, loc).Zero? || IndCell(s, loc).Index?;
    if In(x, p) { BlankPtr(s, x, k); }
    if Live(s, x) {
      LiveKept(s, s1, 0, x);
    }
    hide Inv, SetPtr, Ptr, PtrOf, FileAt, DropBlk;
  }

  /** free_block(f->f_indirect); f->f_indirect = 0. */
  method DropIndirect(m: Server, loc: Loc)
    requires m.Valid() && m.Handle(loc) && Named(m.V(), loc) && Ptr(m.V(), Ind(loc)) != 0
    requires forall k {:trigger PtrOf(m.V(), loc, k)} :: k >= NDIRECT ==> PtrOf(m.V(), loc, k) == 0
    modifies m
    ensures m.Valid() && m.Handle(loc) && Named(m.V(), loc) && old(m.cache.Keys) <= m.cache.Keys
    ensures Dropped(old(m.V()), m.V(), loc)
  {
    ghost var s := m.V();
    LiveBlock(s, m.owner, loc);
    assert IndReq(s, m.owner, loc, 0);
    var p := m.GetSlot(Ind(loc));
    DropReady(s, m.owner, loc);
    hide Inv, FileAt, Ptr, PtrOf, SetPtr, FreeBlk, Live, CanSet, Dropped;
    m.FreeBlock(p);
    m.SetSlot(Ind(loc), 0);
  }

  lemma DropReady(s: Fs, owner: Owner, loc: Loc)
    requires IndReq(s, owner, loc, 0) && Ptr(s, Ind(loc)) != 0
    ensures var p := Ptr(s, Ind(loc));
            && InUse(s, p) && CanSet(FreeBlk(s, p), Ind(loc))
            && var s' := SetPtr(FreeBlk(s, p), Ind(loc), 0);
               Inv(s', owner) && Dropped(s, s', loc) && Named(s', loc)
  {
    var p := Ptr(s, Ind(loc));
    DropInv(s, owner, loc);
    DropView(s, owner, loc);
    assert SetPtr(FreeBlk(s, p), Ind(loc), 0).blocks == DropBlk(s, loc).blocks;
    assert SetPtr(FreeBlk(s, p), Ind(loc), 0) == DropBlk(s, loc);
  }

  /** Only the size of one record changes. */
  ghost predicate Resized(s: Fs, s': Fs, loc: Loc, size: int) {
    && |s'.blocks| == |s.blocks| && s'.free == s.free && |s.free| == |s.blocks|
    && (forall b {:trigger s'.blocks[b]} :: 0 <= b < |s.free| && s.free[b] ==> s'.blocks[b] == s.blocks[b])
    && (forall x {:trigger FileAt(s', x)} ::
          FileAt(s', x) == if x == loc then FileAt(s, loc).(size := size) else FileAt(s, x))
    && SamePtrs(s, s')
    && (forall x, k {:trigger PtrOf(s', x, k)} :: PtrOf(s', x, k) == PtrOf(s, x, k))
    && (forall x, k {:trigger Cell(s', x, k)} :: FileAt(s, x).kind == Reg ==> Cell(s', x, k) == Cell(s, x, k))
    && (forall x {:trigger Live(s', x)} :: Live(s, x) ==> Live(s', x))
  }

  /** Nothing lies beyond the new size, and a directory's is whole blocks. */
  ghost predicate SizeFits(s: Fs, loc: Loc, size: int) {
    && (FileAt(s, loc).kind == Dir ==> size % BY2BLK == 0)
    && forall k {:trigger PtrOf(s, loc, k)} :: k >= Cap(FileAt(s, loc).(size := size)) ==> PtrOf(s, loc, k) == 0
  }

  /** Storing a new size. The state stays a good one exactly when the size fits. */
  method SetSize(m: Server, loc: Loc, size: int)
    requires m.Valid() && m.Handle(loc) && Named(m.V(), loc) && size >= 0
    modifies m
    ensures m.CacheOk() && m.Handle(loc) && Named(m.V(), loc) && m.cache.Keys == old(m.cache.Keys)
    ensures m.owner == old(m.owner)
    ensures Resized(old(m.V()), m.V(), loc, size)
    ensures m.Valid() <==> SizeFits(old(m.V()), loc, size)
  {
    ghost var s := m.V();
    m.Handled(loc);
    var f := m.Get(loc);
    ResizedView(s, m.owner, loc, size);
    if SizeFits(s, loc, size) { SizeView(s, m.owner, loc, size); }
    hide Inv, HeadReq, Resized, FileAt, Live, SizeFits;
    m.Put(loc, f.(size := size));
    if m.Valid() { FitsIfGood(s, m.V(), m.owner, loc, size); }
  }

  lemma FitsIfGood(s: Fs, s': Fs, owner: Owner, loc: Loc, size: int)
    requires Resized(s, s', loc, size) && Inv(s', owner)
    ensures SizeFits(s, loc, size)
  {
    assert FileAt(s', loc) == FileAt(s, loc).(size := size);
    hide FileAt, Ptr;
    forall k | k >= Cap(FileAt(s, loc).(size := size)) ensures PtrOf(s, loc, k) == 0 {
      assert PtrOf(s', loc, k) == PtrOf(s, loc, k);
    }
  }

  lemma SizeView(s: Fs, owner: Owner, loc: Loc, size: int)
    requires Inv(s, owner) && Named(s, loc) && size >= 0 && SizeFits(s, loc, size)
    ensures CanPut(s, loc) && Inv(PutFile(s, loc, FileAt(s, loc).(size := size)), owner)
    ensures var s' := PutFile(s, loc, FileAt(s, loc).(size := size)); Resized(s, s', loc, size) && Named(s', loc)
  {
    ResizedView(s, owner, loc, size);
    var f := FileAt(s, loc).(size := size);
    LiveBlock(s, owner, loc);
    assert FileOk(f) by { if loc.At? { assert BlockOk(s.blocks[loc.blk]); } }
    hide Resized;
    HeadInv(s, owner, loc, f);
  }

  lemma ResizedView(s: Fs, owner: Owner, loc: Loc, size: int)
    requires Inv(s, owner) && Named(s, loc) && size >= 0
    ensures CanPut(s, loc)
    ensures var s' := PutFile(s, loc, FileAt(s, loc).(size := size)); Resized(s, s', loc, size) && Named(s', loc)
  {
    var f := FileAt(s, loc).(size := size);
    LiveBlock(s, owner, loc);
    assert FileOk(f) by { if loc.At? { assert BlockOk(s.blocks[loc.blk]); } }
    HeadView(s, owner, loc, f);
    var s' := PutFile(s, loc, f);
    forall x ensures Live(s, x) ==> Live(s', x) && (x == loc ==> FileAt(s', x) == f) {}
    assert forall b {:trigger s'.blocks[b]} :: 0 <= b < |s.free| && s.free[b] ==> s'.blocks[b] == s.blocks[b];
    hide Inv, Ptr, PtrOf, PutFile, FileAt, Live;
    forall x, k ensures FileAt(s, x).kind == Reg ==> Cell(s', x, k) == Cell(s, x, k) {
      HeadCell(s, owner, loc, f, x, k);
    }
  }

  // ---- what a truncation does ----

  /** Exactly the blocks at or past file block `nb` are freed, and the indirect block when ten blocks are
      enough; freed blocks are zero. The file keeps its first blocks; every record not in a freed block
      keeps everything. */
  ghost predicate Cut(s: Fs, s': Fs, loc: Loc, nb: int) {
    && |s'.blocks| == |s.blocks| && |s'.free| == |s.free| == |s.blocks|
    && (forall b {:trigger s'.free[b]} :: 0 <= b < |s.free| ==>
          s'.free[b] ==
            (s.free[b] || Clears(s, loc, nb, NINDIRECT, b) || (nb <= NDIRECT && b == Ptr(s, Ind(loc)) != 0)))
    && (forall b {:trigger s'.blocks[b]} :: 0 <= b < |s.free| && s'.free[b] && !s.free[b] ==> s'.blocks[b] == Zero)
    && (forall x {:trigger FileAt(s', x)} :: x != loc ==>
          FileAt(s', x) == if Lost(s, loc, nb, NINDIRECT, x) then Blank else FileAt(s, x))
    && Ptr(s', Ind(loc)) == (if nb <= NDIRECT then 0 else Ptr(s, Ind(loc)))
    && (forall x {:trigger Ptr(s', Ind(x))} :: x != loc && !Lost(s, loc, nb, NINDIRECT, x) ==>
         Ptr(s', Ind(x)) == Ptr(s, Ind(x)))
    && (forall x, k {:trigger PtrOf(s', x, k)} ::
          PtrOf(s', x, k) == if Lost(s, loc, nb, NINDIRECT, x) || (x == loc && k >= nb) then 0 else PtrOf(s, x, k))
    && (forall x, k {:trigger Cell(s', x, k)} ::
          FileAt(s, x).kind == Reg && !Lost(s, loc, nb, NINDIRECT, x) && (x != loc || k < nb) ==>
            Cell(s', x, k) == Cell(s, x, k))
    && !Lost(s, loc, nb, NINDIRECT, loc)
  }

  /** ... and it keeps its name and type. */
  ghost predicate Truncated(s: Fs, s': Fs, loc: Loc, size: int) {
    Cut(s, s', loc, NewBlocks(size)) && SameHead(FileAt(s, loc).(size := size), FileAt(s', loc))
  }

  lemma NothingBeyond(s: Fs, s1: Fs, owner: Owner, loc: Loc, lo: int, hi: int)
    requires Inv(s, owner) && hi == OldBlocks(FileAt(s, loc).size) && lo >= 0
    requires Cleared(s, s1, loc, lo, if lo < hi then hi else lo)
    ensures Cleared(s, s1, loc, lo, NINDIRECT)
    ensures forall k {:trigger PtrOf(s1, loc, k)} :: k >= lo ==> PtrOf(s1, loc, k) == 0
  {
    var top := if lo < hi then hi else lo;
    Within(s, owner, loc);
    hide PtrOf, Cell, Ptr, FileAt, Live, Inv;
    forall k ensures k >= hi || k >= NINDIRECT ==> PtrOf(s, loc, k) == 0 { PtrInRange(s, owner, loc, k); }
    SameClears(s, s1, loc, lo, top, NINDIRECT);
  }

  lemma SameClears(s: Fs, s1: Fs, loc: Loc, lo: int, top: int, end: int)
    requires Cleared(s, s1, loc, lo, top)
    requires forall k {:trigger PtrOf(s, loc, k)} :: lo <= k && (k >= top || k >= end) ==> PtrOf(s, loc, k) == 0
    ensures Cleared(s, s1, loc, lo, end)
    ensures forall k {:trigger PtrOf(s1, loc, k)} :: k >= lo ==> PtrOf(s1, loc, k) == 0
  {
    forall k | k >= lo && (k >= top || k >= end) ensures Cell(s1, loc, k) == Cell(s, loc, k) {
      assert PtrOf(s, loc, k) == 0;
    }
    hide PtrOf, Cell, Ptr, FileAt, Live;
    forall b ensures Clears(s, loc, lo, top, b) <==> Clears(s, loc, lo, end, b) {}
    hide Clears;
    forall x ensures Lost(s, loc, lo, top, x) <==> Lost(s, loc, lo, end, x) {}
  }

  /** After the loop, without and with the indirect block dropped. */
  lemma CutDone(s: Fs, s1: Fs, s2: Fs, loc: Loc, nb: int)
    requires Cleared(s, s1, loc, nb, NINDIRECT)
    requires forall k {:trigger PtrOf(s1, loc, k)} :: k >= nb ==> PtrOf(s1, loc, k) == 0
    requires if nb <= NDIRECT && Ptr(s1, Ind(loc)) != 0 then Dropped(s1, s2, loc) else s2 == s1
    ensures Cut(s, s2, loc, nb)
    ensures SameHead(FileAt(s, loc), FileAt(s2, loc))
    ensures forall k {:trigger PtrOf(s2, loc, k)} :: k >= nb ==> PtrOf(s2, loc, k) == 0
  {
    hide Clears, PtrOf, Cell, Ptr, FileAt, Live;
    assert Ptr(s1, Ind(loc)) == Ptr(s, Ind(loc));
  }

  lemma CutResized(s: Fs, s2: Fs, s3: Fs, loc: Loc, size: int)
    requires Cut(s, s2, loc, NewBlocks(size)) && SameHead(FileAt(s, loc), FileAt(s2, loc)) && Resized(s2, s3, loc, size)
    ensures Truncated(s, s3, loc, size)
  {
    hide Clears, PtrOf, Cell, Ptr, FileAt, Live;
    assert FileAt(s3, loc) == FileAt(s2, loc).(size := size);
  }

  /** What a directory may be cut to: nothing, or a whole number of blocks after which there is a hole. */
  ghost predicate CutFits(s: Fs, loc: Loc, newsize: int) {
    FileAt(s, loc).kind == Dir && newsize > 0 ==> newsize % BY2BLK == 0 && PtrOf(s, loc, newsize / BY2BLK) == 0
  }

  lemma CutFitsIff(s: Fs, s2: Fs, loc: Loc, newsize: int)
    requires Cut(s, s2, loc, NewBlocks(newsize)) && SameHead(FileAt(s, loc), FileAt(s2, loc)) && newsize >= 0
    requires forall k {:trigger PtrOf(s2, loc, k)} :: k >= NewBlocks(newsize) ==> PtrOf(s2, loc, k) == 0
    ensures CutFits(s, loc, newsize) <==> SizeFits(s2, loc, newsize)
  {
    var k := newsize / BY2BLK;
    assert newsize > 0 ==> PtrOf(s2, loc, k) == PtrOf(s, loc, k);
    hide PtrOf, Clears, Lost, FileAt, Cell;
  }

  /**
    file_truncate. It keeps block newsize/BY2BLK, which for a directory lies past its new size: the state stays a
    good one exactly when that block is a hole or the directory is cut to nothing.
   */
  method FileTruncate(m: Server, loc: Loc, newsize: int)
    requires m.Valid() && m.Handle(loc) && Named(m.V(), loc) && newsize >= 0
    modifies m
    ensures m.CacheOk() && m.Handle(loc) && Named(m.V(), loc) && old(m.cache.Keys) <= m.cache.Keys
    ensures Truncated(old(m.V()), m.V(), loc, newsize)
    ensures m.Valid() <==> CutFits(old(m.V()), loc, newsize)
  {
    ghost var s, o := m.V(), m.owner;
    m.Handled(loc);
    var oldBlocks, newBlocks := OldBlocks(m.Get(loc).size), NewBlocks(newsize);
    hide Inv, FileAt, Ptr, PtrOf, Cleared, Dropped, Truncated, Cut, Resized, Live;
    ClearRange(m, loc, newBlocks, oldBlocks);
    ghost var s1 := m.V();
    NothingBeyond(s, s1, o, loc, newBlocks, oldBlocks);
    if newBlocks <= NDIRECT {
      m.Handled(loc);
      LiveBlock(s1, m.owner, loc);
      var ind := m.GetSlot(Ind(loc));
      if ind != 0 {
        DropIndirect(m, loc);
      }
    }
    ghost var s2 := m.V();
    CutDone(s, s1, s2, loc, newBlocks);
    CutFitsIff(s, s2, loc, newsize);
    hide SizeFits, CutFits;
    SetSize(m, loc, newsize);
    CutResized(s, s2, m.V(), loc, newsize);
  }

  /** What the state violates otherwise, whatever the owners are. */
  lemma DirShrinkBreaks(s: Fs, s': Fs, dir: Loc, newsize: int)
    requires FileAt(s, dir).kind == Dir && 0 < newsize < FileAt(s, dir).size && Truncated(s, s', dir, newsize)
    requires newsize % BY2BLK != 0 || PtrOf(s, dir, newsize / BY2BLK) != 0
    ensures !Tidy(s')
  {
    var f := FileAt(s', dir);
    assert f.kind == Dir && f.size == newsize && Cap(f) == newsize / BY2BLK;
    assert PtrOf(s', dir, newsize / BY2BLK) == PtrOf(s, dir, newsize / BY2BLK) ||
      Lost(s, dir, NewBlocks(newsize), NINDIRECT, dir);
  }

  /** The sizes a directory may be given. */
  ghost predicate SizeKeeps(s: Fs, loc: Loc, newsize: int) {
    FileAt(s, loc).kind == Dir && newsize > 0 ==>
      newsize % BY2BLK == 0 && (newsize >= FileAt(s, loc).size || PtrOf(s, loc, newsize / BY2BLK) == 0)
  }

  lemma GrowthFits(s: Fs, o: Owner, loc: Loc, newsize: int)
    requires Inv(s, o) && FileAt(s, loc).size <= newsize
    ensures SizeFits(s, loc, newsize) <==> SizeKeeps(s, loc, newsize)
  {
    Within(s, o, loc);
    hide PtrOf, FileAt;
  }

  /** file_set_size, without the flush of the parent directory. A regular file may have any size. */
  method FileSetSize(m: Server, loc: Loc, newsize: int)
    requires m.Valid() && m.Handle(loc) && Named(m.V(), loc) && newsize >= 0
    modifies m
    ensures m.CacheOk() && m.Handle(loc) && Named(m.V(), loc) && old(m.cache.Keys) <= m.cache.Keys
    ensures m.Valid() <==> SizeKeeps(old(m.V()), loc, newsize)
    ensures if FileAt(old(m.V()), loc).size > newsize then Truncated(old(m.V()), m.V(), loc, newsize)
            else Resized(old(m.V()), m.V(), loc, newsize)
  {
    ghost var s := m.V();
    m.Handled(loc);
    var size := m.Get(loc).size;
    if size <= newsize { GrowthFits(s, m.owner, loc, newsize); }
    assert size > newsize ==> (CutFits(s, loc, newsize) <==> SizeKeeps(s, loc, newsize));
    hide Inv, Truncated, Resized, PtrOf, Live, FileAt, SizeFits, CutFits, SizeKeeps;
    if size > newsize {
      FileTruncate(m, loc, newsize);
    } else {
      SetSize(m, loc, newsize);
    }
  }

  lemma Within(s: Fs, owner: Owner, loc: Loc)
    requires Inv(s, owner)
    ensures forall k {:trigger PtrOf(s, loc, k)} :: k >= Cap(FileAt(s, loc)) ==> PtrOf(s, loc, k) == 0
  {}
}
