/**
  What each elementary change keeps: block ownership, the types of blocks, and every other file's contents.
 */
module FsOps {
  import opened FsModel

  ghost predicate Unreferenced(s: Fs, p: int) {
    forall t {:trigger Ptr(s, t)} :: Ptr(s, t) != p
  }

  /** A used, zeroed block that no slot holds: what alloc_block returns. */
  ghost predicate Spare(s: Fs, p: int) {
    InUse(s, p) && p >= Reserved(|s.blocks|) && s.blocks[p] == Zero && Unreferenced(s, p)
  }

  /** A file that may hold blocks: the root, or a record with a name. */
  predicate Named(s: Fs, loc: Loc) { Live(s, loc) && (loc != Root ==> FileAt(s, loc).name != "") }

  /** Block `i` of a named file, within its size, and with its indirect block if it needs one. */
  predicate CanFill(s: Fs, loc: Loc, i: int) {
    && Named(s, loc) && 0 <= i < Cap(FileAt(s, loc)) && i < NINDIRECT
    && (i >= NDIRECT ==> Ptr(s, Ind(loc)) != 0)
  }

  lemma AllocInv(s: Fs, owner: Owner, p: int)
    requires Inv(s, owner) && 0 <= p < |s.blocks| && s.free[p]
    ensures Inv(AllocBlk(s, p), owner) && Spare(AllocBlk(s, p), p)
    ensures forall x, i {:trigger PtrOf(AllocBlk(s, p), x, i)} :: PtrOf(AllocBlk(s, p), x, i) == PtrOf(s, x, i)
    ensures forall x, i {:trigger Cell(AllocBlk(s, p), x, i)} :: Cell(AllocBlk(s, p), x, i) == Cell(s, x, i)
  {
    var s' := AllocBlk(s, p);
    AllocAt(s, p);
    assert Spare(s', p) by { hide Typed, Tidy, FileAt; }
    assert Shape(s') && Owned(s', owner) by { hide Typed, Tidy, FileAt, Ptr; }
    hide Owned, Shape, Ptr, FileAt, Cell, IndCell, PtrOf, AllocBlk, Spare;
    forall x, i
      ensures PtrOf(s', x, i) == PtrOf(s, x, i) && Cell(s', x, i) == Cell(s, x, i)
    { AllocCell(s, owner, p, x, i); }
    assert Typed(s') by {
      forall x, i ensures Fits(FileAt(s', x).kind, Cell(s', x, i)) {
        assert Cell(s', x, i) == Cell(s, x, i) && FileAt(s', x) == FileAt(s, x);
      }
      forall x ensures IndCell(s', x) == IndCell(s, x) { AllocCell(s, owner, p, x, 0); }
    }
    assert Tidy(s');
  }

  lemma AllocCell(s: Fs, owner: Owner, p: int, x: Loc, i: int)
    requires Inv(s, owner) && 0 <= p < |s.blocks| && s.free[p]
    ensures var s' := AllocBlk(s, p);
            PtrOf(s', x, i) == PtrOf(s, x, i) && Cell(s', x, i) == Cell(s, x, i) && IndCell(s', x) == IndCell(s, x)
  {
    var s' := AllocBlk(s, p);
    AllocAt(s, p);
    assert Ptr(s', Ind(x)) == Ptr(s, Ind(x)) && Ptr(s', SlotOf(s, x, i)) == Ptr(s, SlotOf(s, x, i));
    assert Ptr(s, Ind(x)) != p && PtrOf(s, x, i) != p;
  }

  lemma CanFillCanSet(s: Fs, owner: Owner, loc: Loc, i: int)
    requires Inv(s, owner) && CanFill(s, loc, i)
    ensures CanSet(s, SlotOf(s, loc, i))
  {
    assert IndCell(s, loc).Zero? || IndCell(s, loc).Index?;
    if loc.At? { assert BlockOk(s.blocks[loc.blk]); }
    if i >= NDIRECT { assert BlockOk(s.blocks[Ptr(s, Ind(loc))]); }
  }

  /** No block sits in two slots. */
  lemma Unique(s: Fs, owner: Owner, t: Slot, u: Slot)
    requires Owned(s, owner) && Ptr(s, t) != 0 && Ptr(s, t) == Ptr(s, u)
    ensures t == u
  {
    assert owner[Ptr(s, t)].slot == t && owner[Ptr(s, u)].slot == u;
  }

  // ---- what the invariant asks of the next state, given how it reads ----

  /** Everything but the numbers in the slots of `loc` reads as before. */
  ghost predicate OnlyPtrs(s: Fs, s': Fs, loc: Loc) {
    && SameHead(FileAt(s, loc), FileAt(s', loc))
    && (forall x {:trigger FileAt(s', x)} :: x != loc ==> FileAt(s', x) == FileAt(s, x))
    && (forall b, k {:trigger Ptr(s', Entry(b, k))} :: k < NDIRECT ==> Ptr(s', Entry(b, k)) == Ptr(s, Entry(b, k)))
  }

  lemma TidyKeep(s: Fs, s': Fs, loc: Loc, i: int)
    requires Tidy(s) && OnlyPtrs(s, s', loc) && (loc == Root || FileAt(s, loc).name != "")
    requires i < Cap(FileAt(s, loc)) || PtrOf(s', loc, i) == 0
    requires forall x, k {:trigger PtrOf(s', x, k)} :: x != loc || k != i ==> PtrOf(s', x, k) == PtrOf(s, x, k)
    ensures Tidy(s')
  {
    hide FileAt, Ptr, PtrOf;
  }

  // ---- filling a slot ----

  function Fill(s: Fs, loc: Loc, i: int, p: int): Fs
    requires CanSet(s, SlotOf(s, loc, i))
  { SetPtr(s, SlotOf(s, loc, i), p) }

  ghost predicate FillReq(s: Fs, owner: Owner, loc: Loc, i: int) {
    Inv(s, owner) && CanFill(s, loc, i) && CanSet(s, SlotOf(s, loc, i))
  }

  /** Writing a file block's slot changes that file block only. */
  lemma FillView(s: Fs, owner: Owner, loc: Loc, i: int, p: int)
    requires FillReq(s, owner, loc, i)
    ensures var s' := Fill(s, loc, i, p);
            && OnlyPtrs(s, s', loc) && (forall x {:trigger Ptr(s', Ind(x))} :: Ptr(s', Ind(x)) == Ptr(s, Ind(x)))
            && forall x, k {:trigger PtrOf(s', x, k)} ::
                 PtrOf(s', x, k) == if x == loc && k == i then p else PtrOf(s, x, k)
  {
    var s' := Fill(s, loc, i, p);
    SetPtrAt(s, SlotOf(s, loc, i), p);
    forall x, k ensures PtrOf(s', x, k) == if x == loc && k == i then p else PtrOf(s, x, k) {
      assert Ptr(s', Ind(x)) == Ptr(s, Ind(x));
      assert SlotOf(s', x, k) == SlotOf(s, x, k);
      if SlotOf(s, x, k) == SlotOf(s, loc, i) && i >= NDIRECT { Unique(s, owner, Ind(x), Ind(loc)); }
    }
  }

  /** No block changes but those of records, which stay so, and `ind`, which becomes one of entries. */
  ghost predicate BlocksKeep(s: Fs, s': Fs, ind: int) {
    && s'.free == s.free && |s'.blocks| == |s.blocks|
    && forall b {:trigger s'.blocks[b]} :: 0 <= b < |s.blocks| ==>
         || s'.blocks[b] == s.blocks[b]
         || (s'.blocks[b].Recs? && s.blocks[b].Recs?)
         || (s'.blocks[b].Index? && b == ind && ind != 0)
  }

  lemma FillBlocks(s: Fs, owner: Owner, loc: Loc, i: int, p: int)
    requires FillReq(s, owner, loc, i)
    ensures Shape(Fill(s, loc, i, p)) && BlocksKeep(s, Fill(s, loc, i, p), Ptr(s, Ind(loc)))
  {
    hide Owned, Tidy, Typed;
    if loc.At? { assert BlockOk(s.blocks[loc.blk]); }
    if i >= NDIRECT { assert BlockOk(s.blocks[Ptr(s, Ind(loc))]); }
  }

  /** So no file's data changes, and every block still suits its file. */
  lemma CellKeep(s: Fs, s': Fs, owner: Owner, loc: Loc, x: Loc, k: int)
    requires Inv(s, owner) && BlocksKeep(s, s', Ptr(s, Ind(loc)))
    requires PtrOf(s', x, k) == PtrOf(s, x, k)
    ensures FileAt(s, x).kind == Reg ==> Cell(s', x, k) == Cell(s, x, k)
    ensures Fits(FileAt(s, x).kind, Cell(s', x, k))
  {
    var q := PtrOf(s, x, k);
    if q != 0 && q == Ptr(s, Ind(loc)) { Unique(s, owner, SlotOf(s, x, k), Ind(loc)); }
    assert Fits(FileAt(s, x).kind, Cell(s, x, k));
    hide Owned, Tidy, Ptr, FileAt, Typed, Shape;
  }

  lemma IndKeep(s: Fs, s': Fs, owner: Owner, loc: Loc, x: Loc)
    requires Inv(s, owner) && BlocksKeep(s, s', Ptr(s, Ind(loc)))
    requires Ptr(s', Ind(x)) == Ptr(s, Ind(x))
    ensures IndCell(s', x).Zero? || IndCell(s', x).Index?
  {
    assert IndCell(s, x).Zero? || IndCell(s, x).Index?;
    hide Owned, Tidy, Ptr, FileAt, Typed, Shape;
  }

  lemma FillCell(s: Fs, owner: Owner, loc: Loc, i: int, p: int, x: Loc, k: int)
    requires FillReq(s, owner, loc, i) && (p != 0 ==> Spare(s, p))
    ensures var s' := Fill(s, loc, i, p);
            && (FileAt(s, x).kind == Reg && (x != loc || k != i || PtrOf(s, x, k) == 0) ==>
                  Cell(s', x, k) == Cell(s, x, k))
            && Fits(FileAt(s, x).kind, Cell(s', x, k))
            && (IndCell(s', x).Zero? || IndCell(s', x).Index?)
  {
    FillView(s, owner, loc, i, p);
    FillBlocks(s, owner, loc, i, p);
    var s' := Fill(s, loc, i, p);
    assert PtrOf(s', x, k) == if x == loc && k == i then p else PtrOf(s, x, k);
    IndKeep(s, s', owner, loc, x);
    if x == loc && k == i {
      assert p != 0 ==> p != Ptr(s, Ind(loc)) && s'.blocks[p] == Zero;
    } else {
      CellKeep(s, s', owner, loc, x, k);
    }
    hide Inv, Fill, Ptr, FileAt;
  }

  /** The claim of block `p` by slot `t`. */
  function Own(owner: Owner, t: Slot, p: int): Owner { owner[p := Claim(t, SlotDepth(owner, t))] }

  /** A spare block has no slots in it, so giving it a claim moves nothing else. */
  lemma OwnSpare(s: Fs, owner: Owner, t: Slot, p: int)
    requires Inv(s, owner) && Spare(s, p)
    ensures Owned(s, Own(owner, t, p))
  {
    forall u | Ptr(s, u) != 0
      ensures SlotDepth(Own(owner, t, p), u) == SlotDepth(owner, u)
    {
    }
  }

  lemma FillOwned(s: Fs, owner: Owner, loc: Loc, i: int, p: int)
    requires FillReq(s, owner, loc, i) && (p != 0 ==> Spare(s, p))
    ensures Owned(Fill(s, loc, i, p), if p == 0 then owner else Own(owner, SlotOf(s, loc, i), p))
  {
    var t := SlotOf(s, loc, i);
    SetPtrAt(s, t, p);
    if p != 0 {
      OwnSpare(s, owner, t, p);
      assert Ptr(s, Ind(loc)) != p;
    }
    hide Tidy, Typed, Shape, FileAt, Ptr;
  }

  /** A spare block goes into an empty slot, or a slot is emptied: the invariant stays. */
  lemma FillInv(s: Fs, owner: Owner, loc: Loc, i: int, p: int)
    requires FillReq(s, owner, loc, i) && (p != 0 ==> Spare(s, p))
    ensures Inv(Fill(s, loc, i, p), if p == 0 then owner else Own(owner, SlotOf(s, loc, i), p))
  {
    var s' := Fill(s, loc, i, p);
    FillView(s, owner, loc, i, p);
    FillBlocks(s, owner, loc, i, p);
    FillOwned(s, owner, loc, i, p);
    TidyKeep(s, s', loc, i);
    hide Owned, Fill, FileAt, Ptr, Shape, Tidy, Spare;
    assert Typed(s') by {
      forall x, k ensures Fits(FileAt(s', x).kind, Cell(s', x, k)) {
        FillCell(s, owner, loc, i, p, x, k);
        assert FileAt(s', x).kind == FileAt(s, x).kind;
      }
      forall x ensures IndCell(s', x).Zero? || IndCell(s', x).Index? { FillCell(s, owner, loc, i, p, x, 0); }
      hide Cell, IndCell;
    }
  }

  // ---- the indirect block itself ----

  /** Giving a file an indirect block, or taking an empty one away. */
  ghost predicate IndReq(s: Fs, owner: Owner, loc: Loc, p: int) {
    && Inv(s, owner) && Named(s, loc) && CanSet(s, Ind(loc))
    && (p != 0 ==> Ptr(s, Ind(loc)) == 0 && Spare(s, p))
    && forall k {:trigger PtrOf(s, loc, k)} :: k >= NDIRECT ==> PtrOf(s, loc, k) == 0
  }

  lemma IndView(s: Fs, owner: Owner, loc: Loc, p: int)
    requires IndReq(s, owner, loc, p)
    ensures var s' := SetPtr(s, Ind(loc), p);
            && OnlyPtrs(s, s', loc) && Shape(s') && BlocksKeep(s, s', 0)
            && (forall x {:trigger Ptr(s', Ind(x))} :: Ptr(s', Ind(x)) == if x == loc then p else Ptr(s, Ind(x)))
            && forall x, k {:trigger PtrOf(s', x, k)} :: PtrOf(s', x, k) == PtrOf(s, x, k)
  {
    var s' := SetPtr(s, Ind(loc), p);
    SetPtrAt(s, Ind(loc), p);
    hide Owned, Tidy, Typed;
    if loc.At? { assert BlockOk(s.blocks[loc.blk]); }
    forall x, k ensures PtrOf(s', x, k) == PtrOf(s, x, k) {
      assert PtrOf(s, x, k) == 0 || x != loc || k < NDIRECT;
      assert Ptr(s', Ind(x)) == if x == loc then p else Ptr(s, Ind(x));
      assert p != 0 ==> s.blocks[p] == Zero;
      if x == loc && k >= NDIRECT { assert Ptr(s', Entry(p, k)) == Ptr(s, Entry(p, k)); }
    }
  }

  lemma IndOwned(s: Fs, owner: Owner, loc: Loc, p: int)
    requires IndReq(s, owner, loc, p)
    ensures Owned(SetPtr(s, Ind(loc), p), if p == 0 then owner else Own(owner, Ind(loc), p))
  {
    SetPtrAt(s, Ind(loc), p);
    if p != 0 { OwnSpare(s, owner, Ind(loc), p); }
    hide Tidy, Typed, Shape, FileAt, Ptr;
  }

  lemma IndCells(s: Fs, owner: Owner, loc: Loc, p: int, x: Loc, k: int)
    requires IndReq(s, owner, loc, p)
    ensures var s' := SetPtr(s, Ind(loc), p);
            && (FileAt(s, x).kind == Reg ==> Cell(s', x, k) == Cell(s, x, k))
            && Fits(FileAt(s, x).kind, Cell(s', x, k)) && (IndCell(s', x).Zero? || IndCell(s', x).Index?)
  {
    var s' := SetPtr(s, Ind(loc), p);
    IndView(s, owner, loc, p);
    assert p != 0 ==> s.blocks[p] == Zero;
    assert PtrOf(s', x, k) == PtrOf(s, x, k) && Ptr(s', Ind(x)) == if x == loc then p else Ptr(s, Ind(x));
    hide Owned, Tidy, Shape, FileAt, Ptr, PtrOf, SetPtr, Spare;
    CellStays(s, s', x, k);
    IndStays(s, s', x, if x == loc then p else Ptr(s, Ind(x)));
  }

  lemma CellStays(s: Fs, s': Fs, x: Loc, k: int)
    requires Typed(s) && BlocksKeep(s, s', 0) && PtrOf(s', x, k) == PtrOf(s, x, k)
    ensures FileAt(s, x).kind == Reg ==> Cell(s', x, k) == Cell(s, x, k)
    ensures Fits(FileAt(s, x).kind, Cell(s', x, k))
  {
    assert Fits(FileAt(s, x).kind, Cell(s, x, k));
    hide FileAt, PtrOf, Typed;
  }

  lemma IndStays(s: Fs, s': Fs, x: Loc, p: int)
    requires Typed(s) && BlocksKeep(s, s', 0) && Ptr(s', Ind(x)) == p
    requires p == Ptr(s, Ind(x)) || p == 0 || (0 <= p < |s.blocks| && s.blocks[p] == Zero)
    ensures IndCell(s', x).Zero? || IndCell(s', x).Index?
  {
    assert IndCell(s, x).Zero? || IndCell(s, x).Index?;
    hide FileAt, Ptr, Typed;
  }

  lemma IndInv(s: Fs, owner: Owner, loc: Loc, p: int)
    requires IndReq(s, owner, loc, p)
    ensures Inv(SetPtr(s, Ind(loc), p), if p == 0 then owner else Own(owner, Ind(loc), p))
  {
    var s' := SetPtr(s, Ind(loc), p);
    IndView(s, owner, loc, p);
    IndOwned(s, owner, loc, p);
    TidyKeep(s, s', loc, 0);
    hide Owned, SetPtr, FileAt, Ptr, Shape, Tidy, Spare;
    assert Typed(s') by {
      forall x, k ensures Fits(FileAt(s', x).kind, Cell(s', x, k)) {
        IndCells(s, owner, loc, p, x, k);
        assert FileAt(s', x).kind == FileAt(s, x).kind;
      }
      forall x ensures IndCell(s', x).Zero? || IndCell(s', x).Index? { IndCells(s, owner, loc, p, x, 0); }
    }
  }

  // ---- freeing a block no slot holds ----

  predicate In(x: Loc, p: int) { x.At? && x.blk == p }

  /** The records and entries it held read as blank. */
  lemma FreeView(s: Fs, p: int)
    requires Shape(s) && InUse(s, p)
    ensures var s' := FreeBlk(s, p);
            && (forall x {:trigger FileAt(s', x)} :: FileAt(s', x) == if In(x, p) then Blank else FileAt(s, x))
            && (forall b, i {:trigger Ptr(s', Entry(b, i))} ::
                  Ptr(s', Entry(b, i)) == if b == p then 0 else Ptr(s, Entry(b, i)))
  {
  }

  lemma FreeCell(s: Fs, owner: Owner, p: int, x: Loc, k: int)
    requires Inv(s, owner) && InUse(s, p) && Unreferenced(s, p)
    ensures var s' := FreeBlk(s, p);
            && PtrOf(s', x, k) == (if In(x, p) then 0 else PtrOf(s, x, k))
            && Ptr(s', Ind(x)) == (if In(x, p) then 0 else Ptr(s, Ind(x)))
            && Cell(s', x, k) == (if In(x, p) then Zero else Cell(s, x, k))
            && IndCell(s', x) == (if In(x, p) then Zero else IndCell(s, x))
  {
    FreeView(s, p);
    assert Ptr(s, Ind(x)) != p && PtrOf(s, x, k) != p;
    hide Owned, Tidy, Typed;
  }

  lemma FreeInv(s: Fs, owner: Owner, p: int)
    requires Inv(s, owner) && InUse(s, p) && p >= Reserved(|s.blocks|) && Unreferenced(s, p)
    ensures Inv(FreeBlk(s, p), owner)
  {
    var s' := FreeBlk(s, p);
    FreeView(s, p);
    forall t | Ptr(s', t) != 0 ensures Ptr(s', t) == Ptr(s, t) && Ptr(s, t) != p {}
    assert Owned(s', owner);
    hide Owned, FreeBlk, Ptr, FileAt, PtrOf;
    assert Typed(s') by {
      forall x, k ensures Fits(FileAt(s', x).kind, Cell(s', x, k)) {
        FreeCell(s, owner, p, x, k);
        assert Fits(FileAt(s, x).kind, Cell(s, x, k));
      }
      forall x ensures IndCell(s', x).Zero? || IndCell(s', x).Index? {
        FreeCell(s, owner, p, x, 0);
        assert IndCell(s, x).Zero? || IndCell(s, x).Index?;
      }
    }
    assert Tidy(s') by {
      forall x, k ensures PtrOf(s', x, k) == if In(x, p) then 0 else PtrOf(s, x, k) { FreeCell(s, owner, p, x, k); }
    }
  }

  // ---- the data of a block, and the head of a record ----

  lemma PutDataView(s: Fs, p: int, b: Block)
    requires 0 <= p < |s.blocks| && Fits(Reg, b) && Fits(Reg, s.blocks[p])
    ensures SamePtrs(s, PutBlk(s, p, b))
    ensures forall x {:trigger FileAt(PutBlk(s, p, b), x)} :: FileAt(PutBlk(s, p, b), x) == FileAt(s, x)
  {
  }

  /** Writing a regular file's block changes that block of that file only. */
  lemma PutDataInv(s: Fs, owner: Owner, loc: Loc, i: int, b: Block)
    requires Inv(s, owner) && PtrOf(s, loc, i) != 0 && FileAt(s, loc).kind == Reg
    requires Fits(Reg, b) && BlockOk(b)
    ensures InUse(s, PtrOf(s, loc, i))
    ensures var s' := PutBlk(s, PtrOf(s, loc, i), b);
            && Inv(s', owner) && SamePtrs(s, s')
            && (forall x {:trigger FileAt(s', x)} :: FileAt(s', x) == FileAt(s, x))
            && (forall x, k {:trigger PtrOf(s', x, k)} :: PtrOf(s', x, k) == PtrOf(s, x, k))
            && (forall x, k {:trigger Cell(s', x, k)} ::
                  Cell(s', x, k) == if x == loc && k == i then b else Cell(s, x, k))
  {
    var p := PtrOf(s, loc, i);
    var s' := PutBlk(s, p, b);
    assert Fits(Reg, Cell(s, loc, i));
    PutDataView(s, p, b);
    hide FileAt;
    forall x, k
      ensures PtrOf(s', x, k) == PtrOf(s, x, k)
      ensures Cell(s', x, k) == if x == loc && k == i then b else Cell(s, x, k)
      ensures IndCell(s', x) == IndCell(s, x)
    {
      assert Ptr(s', Ind(x)) == Ptr(s, Ind(x)) && Ptr(s', SlotOf(s, x, k)) == PtrOf(s, x, k);
      if PtrOf(s, x, k) == p { SameCell(s, owner, x, k, loc, i); }
      if Ptr(s, Ind(x)) == p { Unique(s, owner, Ind(x), SlotOf(s, loc, i)); }
    }
    hide Ptr, FileAt, PtrOf;
    assert Typed(s') by {
      forall x, k ensures Fits(FileAt(s', x).kind, Cell(s', x, k)) { assert Fits(FileAt(s, x).kind, Cell(s, x, k)); }
      forall x ensures IndCell(s', x) == IndCell(s, x) { assert PtrOf(s', x, 0) == PtrOf(s, x, 0); }
    }
  }

  /** No block belongs to two file blocks. */
  lemma SameCell(s: Fs, owner: Owner, x: Loc, k: int, y: Loc, i: int)
    requires Owned(s, owner) && PtrOf(s, x, k) != 0 && PtrOf(s, x, k) == PtrOf(s, y, i)
    ensures x == y && k == i
  {
    Unique(s, owner, SlotOf(s, x, k), SlotOf(s, y, i));
    if k >= NDIRECT {
      assert Ptr(s, Ind(x)) == Ptr(s, Ind(y));
      assert InUse(s, Ptr(s, Ind(x)));
      Unique(s, owner, Ind(x), Ind(y));
    }
  }

  // ---- the head of a record ----

  /** A record may get a new name, size, type and parent: nothing may lie beyond the size, the type may
      change only while the file is empty, and a record goes only into a directory's block. */
  ghost predicate HeadReq(s: Fs, owner: Owner, loc: Loc, f: File) {
    && HeadPut(s, owner, loc, f)
    && (f.kind == Dir ==> f.size % BY2BLK == 0)
    && (forall k {:trigger PtrOf(s, loc, k)} :: k >= Cap(f) ==> PtrOf(s, loc, k) == 0)
    && (f.kind != FileAt(s, loc).kind ==> Empty(s, loc))
    && (loc != Root && f.name == "" ==> Empty(s, loc) && f.indirect == 0 && f.size == 0)
  }

  /** A record may be stored: it keeps its slots, and lies in a directory's block. */
  ghost predicate HeadPut(s: Fs, owner: Owner, loc: Loc, f: File) {
    && Inv(s, owner) && CanPut(s, loc) && FileOk(f)
    && f.direct == FileAt(s, loc).direct && f.indirect == FileAt(s, loc).indirect
    && (forall x, k {:trigger PtrOf(s, x, k)} :: loc.At? && PtrOf(s, x, k) == loc.blk ==> FileAt(s, x).kind == Dir)
    && (forall x {:trigger Ptr(s, Ind(x))} :: loc.At? ==> Ptr(s, Ind(x)) != loc.blk)
  }

  ghost predicate Empty(s: Fs, loc: Loc) {
    forall k {:trigger PtrOf(s, loc, k)} :: PtrOf(s, loc, k) == 0
  }

  lemma HeadView(s: Fs, owner: Owner, loc: Loc, f: File)
    requires HeadPut(s, owner, loc, f)
    ensures var s' := PutFile(s, loc, f);
            && Shape(s') && SamePtrs(s, s') && s'.free == s.free
            && (forall x {:trigger FileAt(s', x)} :: FileAt(s', x) == if x == loc then f else FileAt(s, x))
            && (forall x, k {:trigger PtrOf(s', x, k)} :: PtrOf(s', x, k) == PtrOf(s, x, k))
  {
    var s' := PutFile(s, loc, f);
    PutFileAt(s, loc, f);
    assert Shape(s') by {
      if loc.At? { assert BlockOk(s.blocks[loc.blk]); }
    }
    assert SamePtrs(s, s');
    hide FileAt, Ptr, Inv;
    forall x, k ensures PtrOf(s', x, k) == PtrOf(s, x, k) {
      assert Ptr(s', Ind(x)) == Ptr(s, Ind(x));
      assert Ptr(s', SlotOf(s, x, k)) == Ptr(s, SlotOf(s, x, k));
    }
  }

  lemma HeadCell(s: Fs, owner: Owner, loc: Loc, f: File, x: Loc, k: int)
    requires HeadPut(s, owner, loc, f)
    ensures var s' := PutFile(s, loc, f);
            && (FileAt(s, x).kind == Reg ==> Cell(s', x, k) == Cell(s, x, k))
            && (f.kind == FileAt(s, loc).kind || Empty(s, loc) ==> Fits(FileAt(s', x).kind, Cell(s', x, k)))
            && (IndCell(s', x).Zero? || IndCell(s', x).Index?)
  {
    var s' := PutFile(s, loc, f);
    HeadView(s, owner, loc, f);
    HeadTyped(s, owner, loc, f, x, k);
    assert PtrOf(s', x, k) == PtrOf(s, x, k) && Ptr(s', Ind(x)) == Ptr(s, Ind(x));
    assert FileAt(s', x) == if x == loc then f else FileAt(s, x);
    hide Inv, Owned, Tidy, Typed, Shape, FileAt, Ptr, PtrOf;
  }

  lemma HeadTyped(s: Fs, owner: Owner, loc: Loc, f: File, x: Loc, k: int)
    requires HeadPut(s, owner, loc, f)
    ensures Fits(FileAt(s, x).kind, Cell(s, x, k)) && (IndCell(s, x).Zero? || IndCell(s, x).Index?)
  {
    hide FileAt, Ptr, PtrOf;
  }

  lemma HeadInv(s: Fs, owner: Owner, loc: Loc, f: File)
    requires HeadReq(s, owner, loc, f)
    ensures Inv(PutFile(s, loc, f), owner)
  {
    var s' := PutFile(s, loc, f);
    HeadView(s, owner, loc, f);
    assert f.name == "" && loc != Root ==> f.direct == NoPtrs by {
      if f.name == "" && loc != Root {
        forall k | 0 <= k < NDIRECT ensures f.direct[k] == 0 { assert PtrOf(s, loc, k) == 0; }
      }
    }
    hide PutFile, FileAt, Ptr, PtrOf, Shape;
    assert Typed(s') by {
      forall x, k ensures Fits(FileAt(s', x).kind, Cell(s', x, k)) { HeadCell(s, owner, loc, f, x, k); }
      forall x ensures IndCell(s', x).Zero? || IndCell(s', x).Index? { HeadCell(s, owner, loc, f, x, 0); }
    }
    assert Owned(s', owner);
    assert Tidy(s') by { hide Owned, Typed; }
  }

  /** A live record already sits in a directory's block. */
  lemma LiveBlock(s: Fs, owner: Owner, loc: Loc)
    requires Inv(s, owner) && Live(s, loc)
    ensures CanPut(s, loc)
    ensures forall x, k {:trigger PtrOf(s, x, k)} :: loc.At? && PtrOf(s, x, k) == loc.blk ==> FileAt(s, x).kind == Dir
    ensures forall x {:trigger Ptr(s, Ind(x))} :: loc.At? ==> Ptr(s, Ind(x)) != loc.blk
  {
    if loc.At? {
      assert BlockOk(s.blocks[loc.blk]);
      forall x, k | PtrOf(s, x, k) == loc.blk ensures FileAt(s, x).kind == Dir {
        assert Fits(FileAt(s, x).kind, Cell(s, x, k));
      }
      forall x ensures Ptr(s, Ind(x)) != loc.blk { assert IndCell(s, x).Zero? || IndCell(s, x).Index?; }
    }
  }
}
