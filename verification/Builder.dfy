/**
  The image builder's methods (tools/fsformat.c): the array of blocks, the next free block, the root record.
 */
module ImageBuilder {
  import opened FsModel
  import opened FsOps
  import opened FsServer
  import opened FsFile
  import opened FsTruncate
  import opened FsTree
  import opened FsDir
  import opened Image

  /** The bitmap of a disk whose first `n` blocks are used. */
  function FreeFrom(n: int): (f: seq<bool>)
    ensures |f| == NBLOCK && forall b :: 0 <= b < NBLOCK ==> f[b] == (b >= n)
  { seq(NBLOCK, b => b >= n) }

  /** Every block from 3 on that was taken is linked: the slot its claim names holds it. */
  ghost predicate AllLinked(s: Fs, owner: Owner, n: int) {
    forall b {:trigger b in owner} {:trigger owner[b]} :: 3 <= b < n ==> b in owner && Ptr(s, owner[b].slot) == b
  }

  /** An indirect block is there only for an eleventh block. */
  ghost predicate IndsUsed(s: Fs) {
    forall x {:trigger Ptr(s, Ind(x))} :: Ptr(s, Ind(x)) != 0 ==> PtrOf(s, x, NDIRECT) != 0
  }

  /** ... and directories have all the blocks their size says. */
  ghost predicate NoGaps(s: Fs) {
    && IndsUsed(s)
    && forall x, k {:trigger PtrOf(s, x, k)} ::
         FileAt(s, x).kind == Dir && 0 <= k < FileAt(s, x).size / BY2BLK ==> PtrOf(s, x, k) != 0
  }

  /** So save_block_link makes one exactly at the eleventh. */
  lemma IndWhen(s: Fs, owner: Owner, x: Loc, i: int)
    requires Inv(s, owner) && IndsUsed(s) && i >= 0 && PtrOf(s, x, i) == 0
    requires (i > NDIRECT ==> PtrOf(s, x, NDIRECT) != 0)
    ensures NeedsInd(s, x, i) <==> i == NDIRECT
  {
    assert !InUse(s, 0);
  }

  /** The block number after the last of a directory is not set. */
  lemma DirEnd(s: Fs, owner: Owner, dir: Loc)
    requires Inv(s, owner) && NoGaps(s) && Named(s, dir) && FileAt(s, dir).kind == Dir
    ensures var nblk := FileAt(s, dir).size / BY2BLK;
      nblk >= 0 && PtrOf(s, dir, nblk) == 0 && nblk <= NINDIRECT && (NeedsInd(s, dir, nblk) <==> nblk == NDIRECT)
  {
    var nblk := FileAt(s, dir).size / BY2BLK;
    SizeOk(s, owner, dir);
    Within(s, owner, dir);
    if nblk > 0 { PtrInRange(s, owner, dir, nblk - 1); assert PtrOf(s, dir, nblk - 1) != 0; }
    assert nblk > NDIRECT ==> PtrOf(s, dir, NDIRECT) != 0;
    hide Inv, NoGaps;
    IndWhen(s, owner, dir, nblk);
  }

  class Builder {
    var blocks: seq<Block>
    var nextbno: int
    var root: File
    var bitmap: seq<bool>
    ghost var owner: Owner

    ghost function V(): Fs
      reads this
    { Fs(blocks, FreeFrom(nextbno), root) }

    /** Blocks not taken yet are all zero. */
    ghost predicate Room()
      reads this
    { |blocks| == NBLOCK && 3 <= nextbno <= NBLOCK && forall b :: nextbno <= b < NBLOCK ==> blocks[b] == Zero }

    ghost predicate Valid()
      reads this
    { Room() && Inv(V(), owner) && AllLinked(V(), owner, nextbno) && NoGaps(V()) }

    /** init_disk. */
    constructor ()
      ensures Valid() && nextbno == 3 && FileAt(V(), Root).name == "/" && FileAt(V(), Root).kind == Dir
      ensures Packed(V(), Root, 0)
      ensures bitmap == seq(BIT2BLK, b => b < NBLOCK)
    {
      blocks := Repeat(Zero, NBLOCK);
      nextbno := 2 + (NBLOCK + BIT2BLK - 1) / BIT2BLK;
      root := Blank.(name := "/", kind := Dir);
      bitmap := seq(BIT2BLK, b => b < NBLOCK);
      owner := map[];
      new;
      EmptyImage(V(), owner);
    }

    /** next_block; past the last block there is no image. */
    method NextBlock() returns (ok: bool, bno: int)
      requires |blocks| == NBLOCK && 3 <= nextbno <= NBLOCK
      modifies this`nextbno
      ensures ok <==> old(nextbno) < NBLOCK
      ensures !ok ==> nextbno == old(nextbno)
      ensures ok ==>
        bno == old(nextbno) && nextbno == old(nextbno) + 1 && V() == old(V()).(free := old(V()).free[bno := false])
    {
      if nextbno >= NBLOCK { return false, 0; }
      bno := nextbno;
      nextbno := nextbno + 1;
      assert FreeFrom(nextbno) == FreeFrom(bno)[bno := false];
      return true, bno;
    }

    method SetSlot(t: Slot, p: int)
      requires CanSet(V(), t)
      modifies this`blocks, this`root
      ensures V() == SetPtr(old(V()), t, p)
    {
      match t
      case Direct(loc, i) => Put(loc, Get(loc).(direct := Get(loc).direct[i := p]));
      case Ind(loc) => Put(loc, Get(loc).(indirect := p));
      case Entry(b, i) => blocks := blocks[b := Index(AsEnts(blocks[b])[i := p])];
    }

    function Get(loc: Loc): (f: File)
      requires CanPut(V(), loc)
      reads this
      ensures f == FileAt(V(), loc)
    { if loc == Root then root else AsRecs(blocks[loc.blk])[loc.j] }

    method Put(loc: Loc, f: File)
      requires CanPut(V(), loc)
      modifies this`blocks, this`root
      ensures V() == PutFile(old(V()), loc, f)
    {
      if loc == Root { root := f; } else { blocks := blocks[loc.blk := Recs(AsRecs(blocks[loc.blk])[loc.j := f])]; }
    }

    /** save_block_link of the block taken last. It stops at a file too large, or at the end of the disk. */
    method SaveBlockLink(loc: Loc, i: int, bno: int) returns (ok: bool)
      requires |blocks| == NBLOCK && 4 <= nextbno <= NBLOCK && bno == nextbno - 1
      requires i >= 0 && CanPut(V(), loc)
      requires (i < NINDIRECT && (NeedsInd(V(), loc, i) ==> nextbno < NBLOCK) ==> CanLinkRaw(V(), loc, i, bno))
      modifies this`blocks, this`root, this`nextbno
      ensures ok <==> i < NINDIRECT && (NeedsInd(old(V()), loc, i) ==> old(nextbno) < NBLOCK)
      ensures ok ==> CanLinkRaw(old(V()), loc, i, bno) && V() == Link(old(V()), loc, i, bno)
      ensures ok ==> nextbno == old(nextbno) + if NeedsInd(old(V()), loc, i) then 1 else 0
    {
      if i >= NINDIRECT { return false; }
      ghost var x := V();
      if i < NDIRECT {
        SetSlot(Direct(loc, i), bno);
      } else {
        if Get(loc).indirect == 0 {
          var ind;
          ok, ind := NextBlock();
          if !ok { return; }
          assert V() == AllocBlk(x, bno + 1);
          SetSlot(Ind(loc), ind);
        }
        assert V() == WithInd1(x, loc, i, bno);
        SetSlot(Entry(Get(loc).indirect, i), bno);
      }
      return true;
    }
  }

  lemma EmptyImage(s: Fs, owner: Owner)
    requires owner == map[] && s == Fs(Repeat(Zero, NBLOCK), FreeFrom(3), Blank.(name := "/", kind := Dir))
    ensures Inv(s, owner) && AllLinked(s, owner, 3) && NoGaps(s) && Packed(s, Root, 0)
  {
    forall x, k ensures PtrOf(s, x, k) == 0 && Ptr(s, Ind(x)) == 0 {}
    forall t ensures Ptr(s, t) == 0 {}
  }

  // ---- one more block, and everything still linked ----

  lemma RawOf(s: Fs, owner: Owner, loc: Loc, i: int, p: int)
    requires Inv(s, owner) && Live(s, loc) && 0 <= i < NINDIRECT && 0 < p < |s.blocks| && s.free[p]
    requires NeedsInd(s, loc, i) ==> p + 1 < |s.blocks| && s.blocks[p + 1] == Zero && s.free[p + 1]
    ensures CanLinkRaw(AllocBlk(s, p), loc, i, p) && NeedsInd(AllocBlk(s, p), loc, i) == NeedsInd(s, loc, i)
    ensures !In(loc, p) && CanPut(s, loc) && Live(AllocBlk(s, p), loc)
  {
    var x := AllocBlk(s, p);
    AllocInv(s, owner, p);
    AllocAt(s, p);
    assert Ptr(x, Ind(loc)) == Ptr(s, Ind(loc)) && FileAt(x, loc) == FileAt(s, loc);
    assert Live(x, loc);
    LiveBlock(x, owner, loc);
    LiveBlock(s, owner, loc);
    assert FileOk(FileAt(x, loc)) by { if loc.At? { assert BlockOk(x.blocks[loc.blk]); } }
    if i >= NDIRECT && !NeedsInd(x, loc, i) { CanSetEntry(x, owner, loc, i); }
  }

  lemma WithIndPtr(s: Fs, owner: Owner, loc: Loc, i: int, p: int)
    requires CanLink(s, owner, loc, i, p)
    ensures var s2 := WithInd(s, loc, i, p);
            && (forall t {:trigger Ptr(s2, t)} :: Ptr(s, t) != 0 ==> Ptr(s2, t) == Ptr(s, t))
            && (NeedsInd(s, loc, i) ==> Ptr(s2, Ind(loc)) == p + 1)
  {
    hide Inv, FileAt, Ptr, SetPtr, Live, Named, PtrOf, Cell, Spare;
    TookFirst(s, owner, loc, i, p);
    if NeedsInd(s, loc, i) { IndTaken(AllocBlk(s, p), owner, loc, i, p + 1); }
    hide AllocBlk;
  }

  /** ... and the second, for the indirect block. */
  lemma IndTaken(s: Fs, owner: Owner, loc: Loc, i: int, p: int)
    requires Inv(s, owner) && Named(s, loc) && 0 <= i < NINDIRECT && NeedsInd(s, loc, i)
    requires 0 <= p < |s.blocks| && s.free[p]
    ensures var s1 := AllocBlk(s, p);
            && CanSet(s1, Ind(loc)) && Ptr(SetPtr(s1, Ind(loc), p), Ind(loc)) == p
            && forall t {:trigger Ptr(SetPtr(s1, Ind(loc), p), t)} ::
                 t != Ind(loc) ==> Ptr(SetPtr(s1, Ind(loc), p), t) == Ptr(s, t)
  {
    IndNew(s, owner, loc, i, p);
    AllocInv(s, owner, p);
    InvShape(s, owner);
    AllocAt(s, p);
    hide Inv, FileAt, Ptr, SetPtr, AllocBlk, Live, Named, PtrOf, Cell, Spare;
    SetPtrAt(AllocBlk(s, p), Ind(loc), p);
  }

  lemma InvShape(s: Fs, owner: Owner)
    requires Inv(s, owner)
    ensures Shape(s)
  {}

  /** The state once the first of the blocks is taken. */
  lemma TookFirst(s: Fs, owner: Owner, loc: Loc, i: int, p: int)
    requires CanLink(s, owner, loc, i, p)
    ensures |s.blocks| == |s.free|
    ensures var s1 := AllocBlk(s, p);
            && Inv(s1, owner) && Spare(s1, p) && Live(s1, loc) && Named(s1, loc) && FileAt(s1, loc) == FileAt(s, loc)
            && s1.free == s.free[p := false] && |s1.blocks| == |s.blocks|
            && (forall t {:trigger Ptr(s1, t)} :: Ptr(s1, t) == Ptr(s, t))
            && PtrOf(s1, loc, i) == PtrOf(s, loc, i)
  {
    AllocInv(s, owner, p);
    AllocAt(s, p);
  }

  /** Slots in use keep their blocks; the new slots hold the new ones. */
  lemma LinkedPtr(s: Fs, owner: Owner, loc: Loc, i: int, p: int)
    requires CanLink(s, owner, loc, i, p)
    ensures var s' := Linked(s, loc, i, p);
            && (forall t {:trigger Ptr(s', t)} :: Ptr(s, t) != 0 ==> Ptr(s', t) == Ptr(s, t))
            && Ptr(s', SlotOf(WithInd(s, loc, i, p), loc, i)) == p
            && (NeedsInd(s, loc, i) ==> Ptr(s', Ind(loc)) == p + 1)
  {
    var s2 := WithInd(s, loc, i, p);
    WithIndPtr(s, owner, loc, i, p);
    WithIndInv(s, owner, loc, i, p);
    CanFillCanSet(s2, WithIndOwner(s, owner, loc, i, p), loc, i);
    SetPtrAt(s2, SlotOf(s2, loc, i), p);
    assert Ptr(s2, SlotOf(s2, loc, i)) == 0;
    hide Inv, FileAt, Ptr, SetPtr, WithInd;
  }

  /** A link sets no other file's indirect block. */
  lemma LinkedInds(s: Fs, owner: Owner, loc: Loc, i: int, p: int)
    requires CanLink(s, owner, loc, i, p) && IndsUsed(s) && (NeedsInd(s, loc, i) ==> i == NDIRECT)
    ensures IndsUsed(Linked(s, loc, i, p))
  {
    var s2, s' := WithInd(s, loc, i, p), Linked(s, loc, i, p);
    LinkedInv(s, owner, loc, i, p);
    WithIndInv(s, owner, loc, i, p);
    CanFillCanSet(s2, WithIndOwner(s, owner, loc, i, p), loc, i);
    SetPtrAt(s2, SlotOf(s2, loc, i), p);
    assert forall x {:trigger Ptr(s', Ind(x))} :: Ptr(s', Ind(x)) == Ptr(s2, Ind(x));
    WithIndInds(s, owner, loc, i, p);
    hide Inv, FileAt, Ptr, PtrOf, SetPtr, Linked, WithInd, Filled, CanLink;
    forall x | Ptr(s', Ind(x)) != 0 ensures PtrOf(s', x, NDIRECT) != 0 {
      FilledPtr(s, s', loc, i, x, NDIRECT);
      assert Ptr(s', Ind(x)) == Ptr(s2, Ind(x));
    }
  }

  lemma FilledPtr(s: Fs, s': Fs, loc: Loc, i: int, x: Loc, k: int)
    requires Filled(s, s', loc, i)
    ensures PtrOf(s, x, k) != 0 ==> PtrOf(s', x, k) == PtrOf(s, x, k)
  {}

  lemma WithIndInds(s: Fs, owner: Owner, loc: Loc, i: int, p: int)
    requires CanLink(s, owner, loc, i, p)
    ensures forall x {:trigger Ptr(WithInd(s, loc, i, p), Ind(x))} ::
      x != loc || !NeedsInd(s, loc, i) ==> Ptr(WithInd(s, loc, i, p), Ind(x)) == Ptr(s, Ind(x))
  {
    var s1 := AllocBlk(s, p);
    AllocInv(s, owner, p);
    AllocAt(s, p);
    if NeedsInd(s, loc, i) {
      AllocInv(s1, owner, p + 1);
      AllocAt(s1, p + 1);
      if CanSet(AllocBlk(s1, p + 1), Ind(loc)) { SetPtrAt(AllocBlk(s1, p + 1), Ind(loc), p + 1); }
    }
  }

  lemma LinkedAll(s: Fs, owner: Owner, loc: Loc, i: int, p: int)
    requires CanLink(s, owner, loc, i, p) && AllLinked(s, owner, p) && p >= 3
    ensures var n := p + if NeedsInd(s, loc, i) then 2 else 1;
            AllLinked(Linked(s, loc, i, p), LinkedOwner(s, owner, loc, i, p), n)
  {
    var o' := LinkedOwner(s, owner, loc, i, p);
    LinkedPtr(s, owner, loc, i, p);
    var n := p + if NeedsInd(s, loc, i) then 2 else 1;
    hide Inv, FileAt, Ptr, Linked, WithInd, NeedsInd, SlotOf, CanLink, LinkedOwner, WithIndOwner;
    forall b | 3 <= b < n ensures b in o' && Ptr(Linked(s, loc, i, p), o'[b].slot) == b {
      LinkedOne(s, owner, loc, i, p, b);
    }
  }

  lemma LinkedOne(s: Fs, owner: Owner, loc: Loc, i: int, p: int, b: int)
    requires CanLink(s, owner, loc, i, p) && AllLinked(s, owner, p)
    requires 3 <= b <= p + (if NeedsInd(s, loc, i) then 1 else 0)
    ensures var o' := LinkedOwner(s, owner, loc, i, p); b in o' && Ptr(Linked(s, loc, i, p), o'[b].slot) == b
  {
    LinkedPtr(s, owner, loc, i, p);
    hide Inv, FileAt, Ptr, Linked, WithInd, SlotOf, CanLink, NeedsInd, SlotDepth, InUse;
    var o' := LinkedOwner(s, owner, loc, i, p);
    if b < p {
      assert b in owner && o'[b] == owner[b];
    } else if b == p {
      assert o'[p].slot == SlotOf(WithInd(s, loc, i, p), loc, i);
    } else {
      assert o'[b].slot == Ind(loc);
    }
  }

  /** Blocks past the new ones are still zero. */
  lemma LinkedRoom(s: Fs, owner: Owner, loc: Loc, i: int, p: int, b: int)
    requires CanLink(s, owner, loc, i, p) && 0 <= b < |s.blocks| && b > p && (NeedsInd(s, loc, i) ==> b > p + 1)
    requires s.blocks[b] == Zero && s.free[b]
    ensures |Linked(s, loc, i, p).blocks| == |s.blocks| && Linked(s, loc, i, p).blocks[b] == Zero
    ensures |Linked(s, loc, i, p).free| == |s.free| && Linked(s, loc, i, p).root.name == s.root.name
  {
    LinkedInv(s, owner, loc, i, p);
    WithIndInv(s, owner, loc, i, p);
    var s2 := WithInd(s, loc, i, p);
    assert loc.At? ==> loc.blk != b;
    assert Ptr(s2, Ind(loc)) != b by { LinkedPtr(s, owner, loc, i, p); }
  }

  // ---- directories ----

  ghost predicate DirOk(m: Builder, dir: Loc)
    reads m
  { m.Valid() && Named(m.V(), dir) && FileAt(m.V(), dir).name != "" && FileAt(m.V(), dir).kind == Dir }

  /** What raising the size and linking the block at the end come to, in either order. */
  /** One more block's size, before there is the block. */
  lemma Grows(s: Fs, owner: Owner, dir: Loc, nblk: int, p: int)
    requires Inv(s, owner) && Named(s, dir) && FileAt(s, dir).kind == Dir
    requires nblk == FileAt(s, dir).size / BY2BLK < NINDIRECT
    requires 0 < p < |s.blocks| && s.free[p]
    requires NeedsInd(s, dir, nblk) ==> p + 1 < |s.blocks| && s.free[p + 1]
    requires p + 1 < |s.blocks| ==> s.blocks[p + 1] == Zero
    ensures CanPut(s, dir)
    ensures var size := FileAt(s, dir).size + BY2BLK; var b := Sized(s, dir, size);
            && CanLink(b, owner, dir, nblk, p) && Resized(s, b, dir, size)
            && NeedsInd(b, dir, nblk) == NeedsInd(s, dir, nblk)
            && (p + 1 < |s.blocks| ==> |b.blocks| == |s.blocks| && b.blocks[p + 1] == Zero)
            && b.free == s.free && |b.blocks| == |s.blocks| && FileAt(b, dir).size == size
            && Ptr(b, Ind(dir)) == Ptr(s, Ind(dir))
  {
    var size := FileAt(s, dir).size + BY2BLK;
    Within(s, owner, dir);
    assert FileAt(s, dir).size % BY2BLK == 0 && FileAt(s, dir).size >= 0 by {
      if dir.At? { assert BlockOk(s.blocks[dir.blk]); }
    }
    SizeView(s, owner, dir, size);
    var b := Sized(s, dir, size);
    assert PtrOf(b, dir, nblk) == 0 && Ptr(b, Ind(dir)) == Ptr(s, Ind(dir)) && FileAt(b, dir).size == size;
    assert b.free == s.free && |b.blocks| == |s.blocks|;
    assert dir.At? ==> s.blocks[dir.blk].Recs?;
    assert p + 1 < |s.blocks| ==> b.blocks[p + 1] == Zero;
    hide Inv, FileAt, Ptr, PtrOf, Resized, Live;
  }

  lemma DirGrown(s: Fs, owner: Owner, dir: Loc, nblk: int, p: int)
    requires Inv(s, owner) && Named(s, dir) && FileAt(s, dir).kind == Dir
    requires nblk == FileAt(s, dir).size / BY2BLK < NINDIRECT
    requires 0 < p < |s.blocks| && s.free[p]
    requires NeedsInd(s, dir, nblk) ==> p + 1 < |s.blocks| && s.free[p + 1]
    requires p + 1 < |s.blocks| ==> s.blocks[p + 1] == Zero
    ensures CanPut(s, dir) && CanLinkRaw(AllocBlk(s, p), dir, nblk, p)
    ensures var size := FileAt(s, dir).size + BY2BLK; var b := Sized(s, dir, size);
            var z := Link(AllocBlk(s, p), dir, nblk, p);
            && CanLink(b, owner, dir, nblk, p) && CanPut(z, dir) && FileAt(z, dir).size == FileAt(s, dir).size
            && Sized(z, dir, size) == Linked(b, dir, nblk, p) && Resized(s, b, dir, size)
            && NeedsInd(b, dir, nblk) == NeedsInd(s, dir, nblk)
            && NeedsInd(AllocBlk(s, p), dir, nblk) == NeedsInd(s, dir, nblk)
  {
    var size := FileAt(s, dir).size + BY2BLK;
    var b := Sized(s, dir, size);
    Grows(s, owner, dir, nblk, p);
    RawOf(s, owner, dir, nblk, p);
    hide Inv, FileAt, Ptr, PtrOf, Resized, Link, Linked, Live;
    LinkedIs(b, owner, dir, nblk, p);
    AllocSize(s, p, dir, size);
    LinkSize(AllocBlk(s, p), dir, nblk, p, size);
    LinkHead(AllocBlk(s, p), s, owner, dir, nblk, p);
  }

  lemma LinkHead(x: Fs, s: Fs, owner: Owner, dir: Loc, i: int, p: int)
    requires Inv(s, owner) && 0 <= p < |s.blocks| && s.free[p] && x == AllocBlk(s, p) && CanLinkRaw(x, dir, i, p)
    ensures FileAt(Link(x, dir, i, p), dir).size == FileAt(s, dir).size
  {
    AllocAt(s, p);
    if NeedsInd(x, dir, i) {
      SetPtrAt(AllocBlk(x, p + 1), Ind(dir), p + 1);
      assert FileAt(AllocBlk(x, p + 1), dir) == FileAt(x, dir);
    }
    SetPtrAt(WithInd1(x, dir, i, p), SlotOf(WithInd1(x, dir, i, p), dir, i), p);
  }

  /** After the link: everything in its place again. */
  lemma DirGrownValid(s: Fs, b: Fs, owner: Owner, dir: Loc, nblk: int, p: int)
    requires Inv(s, owner) && NoGaps(s) && AllLinked(s, owner, p) && p >= 3 && FileAt(s, dir).kind == Dir
    requires nblk == FileAt(s, dir).size / BY2BLK && FileAt(s, dir).size % BY2BLK == 0
    requires Resized(s, b, dir, FileAt(s, dir).size + BY2BLK) && Inv(b, owner) && CanLink(b, owner, dir, nblk, p)
    requires CanPut(s, dir) && b == Sized(s, dir, FileAt(s, dir).size + BY2BLK)
    requires (NeedsInd(b, dir, nblk) ==> nblk == NDIRECT)
    ensures var s' := Linked(b, dir, nblk, p); var o' := LinkedOwner(b, owner, dir, nblk, p);
            && Inv(s', o') && NoGaps(s') && Others(s, s', dir) && DirMore(s, s', dir, nblk)
            && PtrOf(s', dir, nblk) == p && Later(s, s') && Named(s', dir)
            && FileAt(s', dir).kind == Dir && FileAt(s', dir).size == FileAt(s, dir).size + BY2BLK
            && FileAt(s', dir).name == FileAt(s, dir).name && Cell(s', dir, nblk) == Zero
            && AllLinked(s', o', p + if NeedsInd(b, dir, nblk) then 2 else 1)
  {
    var s' := Linked(b, dir, nblk, p);
    LinkedInv(b, owner, dir, nblk, p);
    assert AllLinked(b, owner, p) by { ResizedLinked(s, b, owner, dir, FileAt(s, dir).size + BY2BLK, p); }
    LinkedAll(b, owner, dir, nblk, p);
    FilledLater(b, s', dir, nblk);
    ResizedLater(s, b, dir, FileAt(s, dir).size + BY2BLK);
    LaterThen(s, b, s');
    FilledHead(b, s', dir, nblk);
    assert Cell(s', dir, nblk) == Zero by { assert PtrOf(b, dir, nblk) == 0 && PtrOf(s', dir, nblk) == p; }
    hide Inv, FileAt, Ptr, PtrOf, AllLinked, Later, Linked, Live, DirMore, Others, IndsUsed, NoGaps;
    DirGrownReads(s, b, owner, dir, nblk, p);
  }

  lemma DirGrownReads(s: Fs, b: Fs, owner: Owner, dir: Loc, nblk: int, p: int)
    requires Inv(s, owner) && NoGaps(s) && FileAt(s, dir).kind == Dir && nblk == FileAt(s, dir).size / BY2BLK
    requires Resized(s, b, dir, FileAt(s, dir).size + BY2BLK) && CanLink(b, owner, dir, nblk, p) && p != 0
    requires (NeedsInd(b, dir, nblk) ==> nblk == NDIRECT) && FileAt(s, dir).size % BY2BLK == 0
    ensures var s' := Linked(b, dir, nblk, p); NoGaps(s') && Others(s, s', dir) && DirMore(s, s', dir, nblk)
  {
    var s' := Linked(b, dir, nblk, p);
    LinkedInv(b, owner, dir, nblk, p);
    assert PtrOf(b, dir, nblk) == 0;
    hide Inv, FileAt, Ptr, PtrOf, Linked, DirMore, Others, IndsUsed, CanLink, NoGaps;
    ResizedInds(s, b, dir, FileAt(s, dir).size + BY2BLK);
    LinkedInds(b, owner, dir, nblk, p);
    ResizedNames(s, b, dir, FileAt(s, dir).size + BY2BLK);
    FilledOthers(b, s', dir, nblk);
    OthersThen(s, b, s', dir);
    GrownNames(s, b, s', dir, nblk, p);
    GrownFull(s, b, s', dir, nblk, p);
  }

  lemma GrownFull(s: Fs, b: Fs, s': Fs, dir: Loc, nblk: int, p: int)
    requires NoGaps(s) && nblk == FileAt(s, dir).size / BY2BLK && FileAt(s, dir).size % BY2BLK == 0
    requires Resized(s, b, dir, FileAt(s, dir).size + BY2BLK) && Filled(b, s', dir, nblk)
    requires PtrOf(s', dir, nblk) == p != 0 && IndsUsed(s')
    ensures NoGaps(s')
  {
    hide PtrOf, FileAt, Cell, IndsUsed;
    forall x, k | FileAt(s', x).kind == Dir && 0 <= k < FileAt(s', x).size / BY2BLK ensures PtrOf(s', x, k) != 0 {
      assert SameHead(FileAt(b, x), FileAt(s', x));
      assert PtrOf(b, x, k) == PtrOf(s, x, k);
    }
  }

  lemma ResizedInds(s: Fs, b: Fs, dir: Loc, size: int)
    requires Resized(s, b, dir, size) && NoGaps(s)
    ensures IndsUsed(b)
  {
    hide Ptr, PtrOf, FileAt;
    forall x | Ptr(b, Ind(x)) != 0 ensures PtrOf(b, x, NDIRECT) != 0 {
      assert Ptr(b, Ind(x)) == Ptr(s, Ind(x)) && PtrOf(b, x, NDIRECT) == PtrOf(s, x, NDIRECT);
    }
  }

  /** The directory has the records it had, and a block of records without names after them. */
  ghost predicate DirMore(s: Fs, s': Fs, dir: Loc, nblk: int) {
    && (forall q {:trigger KidName(s', dir, q)} :: 0 <= q < FILE2BLK * nblk ==>
         KidName(s', dir, q) == KidName(s, dir, q))
    && forall q {:trigger KidName(s', dir, q)} :: FILE2BLK * nblk <= q < FILE2BLK * (nblk + 1) ==>
         KidName(s', dir, q) == ""
  }

  lemma ResizedNames(s: Fs, b: Fs, dir: Loc, size: int)
    requires Resized(s, b, dir, size)
    ensures Others(s, b, dir)
    ensures forall q {:trigger KidName(b, dir, q)} :: q >= 0 ==> KidName(b, dir, q) == KidName(s, dir, q)
  {
    assert forall y {:trigger FileAt(b, y)} :: FileAt(b, y).name == FileAt(s, y).name;
    hide PtrOf, FileAt, Cell, Live;
    forall x | x != dir ensures DirSame(s, b, x) {
      assert FileAt(b, x) == FileAt(s, x);
      forall k ensures PtrOf(b, x, k) == PtrOf(s, x, k) {}
      NamesSame(s, b, x);
    }
    forall q | q >= 0 ensures KidName(b, dir, q) == KidName(s, dir, q) {
      assert PtrOf(b, dir, q / FILE2BLK) == PtrOf(s, dir, q / FILE2BLK);
    }
  }

  lemma GrownNames(s: Fs, b: Fs, s': Fs, dir: Loc, nblk: int, p: int)
    requires NoGaps(s) && FileAt(s, dir).kind == Dir && nblk == FileAt(s, dir).size / BY2BLK
    requires Resized(s, b, dir, FileAt(s, dir).size + BY2BLK) && Filled(b, s', dir, nblk)
    requires PtrOf(b, dir, nblk) == 0 && PtrOf(s', dir, nblk) == p != 0
    ensures DirMore(s, s', dir, nblk)
  {
    ResizedNames(s, b, dir, FileAt(s, dir).size + BY2BLK);
    GrownPtrs(s, b, s', dir, nblk);
    forall j ensures FileAt(s', At(p, j)).name == "" { NewNames(b, s', dir, nblk, j); }
    forall y ensures FileAt(s', y).name == FileAt(b, y).name { FilledName(b, s', dir, nblk, y); }
    hide PtrOf, FileAt, Cell, Live, InUse, Filled, Resized, NoGaps;
    forall q | 0 <= q < FILE2BLK * nblk ensures KidName(s', dir, q) == KidName(s, dir, q) {
      assert PtrOf(s', dir, q / FILE2BLK) == PtrOf(b, dir, q / FILE2BLK);
      assert KidName(b, dir, q) == KidName(s, dir, q);
    }
    forall q | FILE2BLK * nblk <= q < FILE2BLK * (nblk + 1) ensures KidName(s', dir, q) == "" {
      assert q / FILE2BLK == nblk;
    }
  }

  lemma GrownPtrs(s: Fs, b: Fs, s': Fs, dir: Loc, nblk: int)
    requires NoGaps(s) && FileAt(s, dir).kind == Dir && nblk == FileAt(s, dir).size / BY2BLK
    requires Resized(s, b, dir, FileAt(s, dir).size + BY2BLK) && Filled(b, s', dir, nblk)
    ensures forall k {:trigger PtrOf(s', dir, k)} :: 0 <= k < nblk ==> PtrOf(s', dir, k) == PtrOf(b, dir, k)
  {
    hide PtrOf, FileAt, Cell;
  }

  lemma FilledName(b: Fs, s': Fs, dir: Loc, i: int, y: Loc)
    requires Filled(b, s', dir, i)
    ensures FileAt(s', y).name == FileAt(b, y).name
  {
    assert SameHead(FileAt(b, y), FileAt(s', y));
  }

  lemma NewNames(b: Fs, s': Fs, dir: Loc, i: int, j: int)
    requires Filled(b, s', dir, i) && PtrOf(b, dir, i) == 0 && PtrOf(s', dir, i) != 0
    ensures FileAt(s', At(PtrOf(s', dir, i), j)).name == ""
  {
    ZeroNames(s', dir, i);
  }

  lemma ResizedLater(s: Fs, b: Fs, dir: Loc, size: int)
    requires Resized(s, b, dir, size) && FileAt(s, dir).kind == Dir && size >= FileAt(s, dir).size
    ensures Later(s, b)
  {
    forall x ensures KeptRec(s, b, x) {
      assert FileAt(b, x) == if x == dir then FileAt(s, dir).(size := size) else FileAt(s, x);
      hide PtrOf, Cell, FileAt;
    }
  }

  lemma ResizedLinked(s: Fs, b: Fs, owner: Owner, dir: Loc, size: int, n: int)
    requires Resized(s, b, dir, size) && AllLinked(s, owner, n) && CanPut(s, dir) && b == Sized(s, dir, size)
    ensures AllLinked(b, owner, n)
  {
    SizedAt(s, dir, size);
    forall k | 3 <= k < n ensures k in owner && Ptr(b, owner[k].slot) == k {
      assert k in owner && Ptr(s, owner[k].slot) == k;
    }
  }

  lemma SizeOk(s: Fs, owner: Owner, dir: Loc)
    requires Inv(s, owner) && Named(s, dir) && FileAt(s, dir).kind == Dir
    ensures FileAt(s, dir).size >= 0 && FileAt(s, dir).size % BY2BLK == 0 && CanPut(s, dir)
    ensures NKids(s, dir) == FileAt(s, dir).size / BY2BLK * FILE2BLK
  {
    LiveBlock(s, owner, dir);
    if dir.At? { assert BlockOk(s.blocks[dir.blk]); }
  }

  /** The builder's state with `p` the next free block. */
  ghost predicate Start(s: Fs, owner: Owner, p: int) {
    && Inv(s, owner) && AllLinked(s, owner, p) && NoGaps(s) && s.free == FreeFrom(p) && |s.blocks| == NBLOCK
    && 3 <= p < NBLOCK && forall b {:trigger s.blocks[b]} :: p <= b < NBLOCK ==> s.blocks[b] == Zero
  }

  /** After next_block the state meets save_block_link's demands, if there is room for it. */
  lemma LinkPossible(s: Fs, owner: Owner, loc: Loc, i: int, p: int)
    requires Start(s, owner, p) && Live(s, loc) && i >= 0
    ensures var x := AllocBlk(s, p);
            && x == s.(free := s.free[p := false]) && Live(x, loc)
            && CanPut(x, loc) && NeedsInd(x, loc, i) == NeedsInd(s, loc, i)
            && (i < NINDIRECT && (NeedsInd(x, loc, i) ==> p + 1 < NBLOCK) ==> CanLinkRaw(x, loc, i, p))
  {
    var x := AllocBlk(s, p);
    assert x.blocks == s.blocks;
    AllocInv(s, owner, p);
    AllocAt(s, p);
    assert Live(x, loc) && Ptr(x, Ind(loc)) == Ptr(s, Ind(loc));
    LiveBlock(x, owner, loc);
    if i < NINDIRECT && (NeedsInd(s, loc, i) ==> p + 1 < NBLOCK) { RawOf(s, owner, loc, i, p); }
  }

  lemma RoomKept(s: Fs, owner: Owner, loc: Loc, i: int, p: int, k: int)
    requires CanLink(s, owner, loc, i, p) && s.free == FreeFrom(p) && |s.blocks| == NBLOCK
    requires p < k < NBLOCK && (NeedsInd(s, loc, i) ==> k > p + 1) && s.blocks[k] == Zero
    ensures |Linked(s, loc, i, p).blocks| == NBLOCK && Linked(s, loc, i, p).blocks[k] == Zero
  {
    LinkedRoom(s, owner, loc, i, p, k);
  }

  ghost predicate MadeReq(s: Fs, owner: Owner, dir: Loc, nblk: int, p: int) {
    && Start(s, owner, p) && Named(s, dir) && FileAt(s, dir).kind == Dir && FileAt(s, dir).name != ""
    && nblk == FileAt(s, dir).size / BY2BLK < NINDIRECT && (NeedsInd(s, dir, nblk) ==> p + 1 < NBLOCK)
    && CanPut(s, dir) && CanLinkRaw(AllocBlk(s, p), dir, nblk, p) && (NeedsInd(s, dir, nblk) ==> nblk == NDIRECT)
  }

  /** The state make_link_block leaves. */
  ghost predicate Made(s: Fs, s': Fs, dir: Loc, nblk: int, p: int)
    requires |s.blocks| == |s.free| && 0 <= p < |s.blocks| && CanLinkRaw(AllocBlk(s, p), dir, nblk, p)
  {
    var z := Link(AllocBlk(s, p), dir, nblk, p);
    CanPut(z, dir) && s' == Sized(z, dir, FileAt(z, dir).size + BY2BLK)
  }

  ghost function MadeOwner(s: Fs, owner: Owner, dir: Loc, nblk: int, p: int): Owner
    requires MadeReq(s, owner, dir, nblk, p)
  {
    DirGrown(s, owner, dir, nblk, p);
    LinkedOwner(Sized(s, dir, FileAt(s, dir).size + BY2BLK), owner, dir, nblk, p)
  }

  lemma MadeValid(s: Fs, s': Fs, owner: Owner, dir: Loc, nblk: int, p: int)
    requires MadeReq(s, owner, dir, nblk, p) && Made(s, s', dir, nblk, p)
    ensures Inv(s', MadeOwner(s, owner, dir, nblk, p)) && NoGaps(s') && Later(s, s') && Named(s', dir)
    ensures FileAt(s', dir).kind == Dir && FileAt(s', dir).name != ""
    ensures FileAt(s', dir).size == FileAt(s, dir).size + BY2BLK
    ensures PtrOf(s', dir, nblk) == p && Cell(s', dir, nblk) == Zero
    ensures AllLinked(s', MadeOwner(s, owner, dir, nblk, p), p + if NeedsInd(s, dir, nblk) then 2 else 1)
    ensures Others(s, s', dir) && DirMore(s, s', dir, nblk)
  {
    hide Inv, FileAt, Ptr, PtrOf, AllLinked, Later, Link, Linked, LinkedOwner, NoGaps, Live, CanLinkRaw, Sized;
    hide Resized, CanLink;
    hide Made, MadeOwner, Named, Cell, CanPut, Others, DirMore;
    SizeOk(s, owner, dir);
    MadeIs(s, s', owner, dir, nblk, p);
    DirGrownValid(s, Sized(s, dir, FileAt(s, dir).size + BY2BLK), owner, dir, nblk, p);
  }

  lemma MadeIs(s: Fs, s': Fs, owner: Owner, dir: Loc, nblk: int, p: int)
    requires MadeReq(s, owner, dir, nblk, p) && Made(s, s', dir, nblk, p)
    ensures var b := Sized(s, dir, FileAt(s, dir).size + BY2BLK);
            && CanLink(b, owner, dir, nblk, p) && Inv(b, owner) && Resized(s, b, dir, FileAt(s, dir).size + BY2BLK)
            && s' == Linked(b, dir, nblk, p) && MadeOwner(s, owner, dir, nblk, p) == LinkedOwner(b, owner, dir, nblk, p)
            && NeedsInd(b, dir, nblk) == NeedsInd(s, dir, nblk)
  {
    hide Inv, FileAt, Ptr, PtrOf, AllLinked, Link, Linked, LinkedOwner, NoGaps, Live, CanLinkRaw, Sized, Resized;
    hide CanPut;
    hide Named, Cell, NeedsInd;
    DirGrown(s, owner, dir, nblk, p);
  }

  lemma MadeRoom(s: Fs, s': Fs, owner: Owner, dir: Loc, nblk: int, p: int, k: int)
    requires MadeReq(s, owner, dir, nblk, p) && Made(s, s', dir, nblk, p)
    requires p < k < NBLOCK && (NeedsInd(s, dir, nblk) ==> k > p + 1)
    ensures |s'.blocks| == NBLOCK && s'.blocks[k] == Zero
  {
    DirGrown(s, owner, dir, nblk, p);
    SizedElse(s, owner, dir, k);
    RoomKept(Sized(s, dir, FileAt(s, dir).size + BY2BLK), owner, dir, nblk, p, k);
  }

  lemma MadeDone(s: Fs, owner: Owner, m: Builder, dir: Loc, nblk: int, p: int)
    requires MadeReq(s, owner, dir, nblk, p) && Made(s, m.V(), dir, nblk, p)
    requires m.owner == MadeOwner(s, owner, dir, nblk, p)
    requires m.nextbno == p + (if NeedsInd(s, dir, nblk) then 2 else 1) && m.nextbno <= NBLOCK
    ensures DirOk(m, dir) && Later(s, m.V())
    ensures nblk < NKids(m.V(), dir) / FILE2BLK && p == PtrOf(m.V(), dir, nblk) && m.blocks[p] == Zero
    ensures Others(s, m.V(), dir) && DirMore(s, m.V(), dir, nblk)
    ensures FileAt(m.V(), dir).size == FileAt(s, dir).size + BY2BLK
  {
    MadeValid(s, m.V(), owner, dir, nblk, p);
    SizeOk(m.V(), m.owner, dir);
    MadeLen(s, m.V(), owner, dir, nblk, p);
    assert Cell(m.V(), dir, nblk) == m.blocks[p];
    hide Inv, FileAt, Ptr, PtrOf, AllLinked, Later, Link, Linked, NoGaps, Live, Made, MadeReq, MadeOwner, Others;
    hide DirMore;
    forall k | m.nextbno <= k < NBLOCK ensures m.blocks[k] == Zero { MadeRoom(s, m.V(), owner, dir, nblk, p, k); }
  }

  lemma MadeLen(s: Fs, s': Fs, owner: Owner, dir: Loc, nblk: int, p: int)
    requires MadeReq(s, owner, dir, nblk, p) && Made(s, s', dir, nblk, p)
    ensures |s'.blocks| == NBLOCK && p >= 3
  {
    MadeValid(s, s', owner, dir, nblk, p);
    DirGrown(s, owner, dir, nblk, p);
    LinkedInv(Sized(s, dir, FileAt(s, dir).size + BY2BLK), owner, dir, nblk, p);
  }

  lemma SizedElse(s: Fs, owner: Owner, dir: Loc, k: int)
    requires Inv(s, owner) && Live(s, dir) && 0 <= k < |s.blocks| && s.blocks[k] == Zero && CanPut(s, dir)
    ensures var b := Sized(s, dir, FileAt(s, dir).size + BY2BLK);
            b.free == s.free && |b.blocks| == |s.blocks| && b.blocks[k] == Zero
  {}

  /** What make_link_block takes: a block, and at the eleventh an indirect block. */
  function LinkCost(nblk: int): int { if nblk == NDIRECT then 2 else 1 }

  /** make_link_block. It stops exactly when the directory may not grow, or no blocks are left for it. */
  method MakeLinkBlock(m: Builder, dir: Loc, nblk: int) returns (ok: bool, bno: int)
    requires DirOk(m, dir) && nblk == FileAt(m.V(), dir).size / BY2BLK
    modifies m`blocks, m`nextbno, m`root, m`owner
    ensures ok <==> nblk < NINDIRECT && old(m.nextbno) + LinkCost(nblk) <= NBLOCK
    ensures ok ==> DirOk(m, dir) && Later(old(m.V()), m.V()) && m.nextbno == old(m.nextbno) + LinkCost(nblk)
    ensures ok ==> nblk < NKids(m.V(), dir) / FILE2BLK && bno == PtrOf(m.V(), dir, nblk) != 0
    ensures ok ==> 0 <= bno < |m.blocks| && m.blocks[bno] == Zero
    ensures ok ==> FileAt(m.V(), dir).size == FileAt(old(m.V()), dir).size + BY2BLK
    ensures ok ==> Others(old(m.V()), m.V(), dir) && DirMore(old(m.V()), m.V(), dir, nblk)
  {
    hide Inv, FileAt, Ptr, PtrOf, AllLinked, Later, Link, NoGaps, Live, CanLinkRaw, Sized, MadeOwner, NKids, CanPut;
    hide NeedsInd, Made;
    hide Others, DirMore;
    ghost var s, o := m.V(), m.owner;
    SizeOk(s, o, dir);
    DirEnd(s, o, dir);
    ok, bno := m.NextBlock();
    if !ok { return; }
    LinkPossible(s, o, dir, nblk, bno);
    ok := m.SaveBlockLink(dir, nblk, bno);
    if !ok { return; }
    LinkPut(s, o, dir, nblk, bno);
    m.Put(dir, m.Get(dir).(size := m.Get(dir).size + BY2BLK));
    m.owner := MadeOwner(s, o, dir, nblk, bno);
    MadeDone(s, o, m, dir, nblk, bno);
  }

  lemma LinkPut(s: Fs, owner: Owner, dir: Loc, nblk: int, p: int)
    requires Start(s, owner, p) && Named(s, dir) && FileAt(s, dir).kind == Dir && FileAt(s, dir).name != ""
    requires nblk == FileAt(s, dir).size / BY2BLK < NINDIRECT
    requires (NeedsInd(s, dir, nblk) ==> p + 1 < NBLOCK && nblk == NDIRECT)
    ensures MadeReq(s, owner, dir, nblk, p)
    ensures var z := Link(AllocBlk(s, p), dir, nblk, p);
            && CanPut(z, dir)
            && Made(s, PutFile(z, dir, FileAt(z, dir).(size := FileAt(z, dir).size + BY2BLK)), dir, nblk, p)
  {
    DirGrown(s, owner, dir, nblk, p);
  }

  // ---- an unused record ----

  predicate EntIs(m: Builder, e: int, i: int, b: int)
    reads m
  {
    && 0 <= e < NBLOCK && 0 <= i < NINDIRECT && |m.blocks| == NBLOCK
    && |AsEnts(m.blocks[e])| == NINDIRECT && AsEnts(m.blocks[e])[i] == b
  }

  lemma KidHere(m: Builder, dir: Loc, i: int, j: int)
    requires DirOk(m, dir) && 0 <= i < FileAt(m.V(), dir).size / BY2BLK && 0 <= j < FILE2BLK
    ensures var b := PtrOf(m.V(), dir, i);
            && 3 <= b < NBLOCK && |AsRecs(m.blocks[b])| == FILE2BLK && AsRecs(m.blocks[b])[j] == FileAt(m.V(), At(b, j))
            && KidLoc(m.V(), dir, i * FILE2BLK + j) == At(b, j)
            && CanPut(m.V(), At(b, j)) && i * FILE2BLK + j < NKids(m.V(), dir)
            && (i >= NDIRECT ==> EntIs(m, FileAt(m.V(), dir).indirect, i, b))
            && (i < NDIRECT ==> i < |FileAt(m.V(), dir).direct| && FileAt(m.V(), dir).direct[i] == b)
    ensures CanPut(m.V(), dir)
  {
    var s := m.V();
    var b := PtrOf(s, dir, i);
    SizeOk(s, m.owner, dir);
    assert b != 0;
    assert Fits(Dir, Cell(s, dir, i));
    assert InUse(s, b) && b >= Reserved(NBLOCK) && BlockOk(m.blocks[b]);
    if i >= NDIRECT {
      var e := Ptr(s, Ind(dir));
      assert InUse(s, e) && BlockOk(m.blocks[e]);
    }
  }

  /** An empty record of a directory. */
  ghost predicate NewKid(m: Builder, dir: Loc, file: Loc, q: int)
    reads m
  { EmptyKid(m.V(), m.owner, dir, q) && file == KidLoc(m.V(), dir, q) && 0 <= q < NKids(m.V(), dir) }

  ghost predicate NamedRange(s: Fs, dir: Loc, lo: int, hi: int) {
    forall q {:trigger KidName(s, dir, q)} :: lo <= q < hi ==> KidName(s, dir, q) != ""
  }

  lemma NamedNone(s: Fs, dir: Loc, lo: int)
    ensures NamedRange(s, dir, lo, lo)
  {}

  /** The scan of one directory block. */
  method UnusedIn(m: Builder, dir: Loc, i: int) returns (j: int, bno: int)
    requires DirOk(m, dir) && 0 <= i < FileAt(m.V(), dir).size / BY2BLK
    ensures 0 <= j <= FILE2BLK && (j < FILE2BLK ==> NewKid(m, dir, At(bno, j), i * FILE2BLK + j))
    ensures NamedRange(m.V(), dir, i * FILE2BLK, i * FILE2BLK + j)
  {
    hide Inv, FileAt, PtrOf, CanPut, DirOk, NewKid, NamedRange, KidName;
    bno := DirBlockNo(m, dir, i);
    var recs := AsRecs(m.blocks[bno]);
    RecsHere(m, dir, i, bno);
    j := 0;
    while j < FILE2BLK && recs[j].name != ""
      invariant 0 <= j <= FILE2BLK && forall k :: 0 <= k < j ==> recs[k].name != ""
    {
      j := j + 1;
    }
    UnusedHere(m, dir, i, j, bno, recs);
  }

  /** The number of block `i` of a directory, from its record or from its indirect block. */
  method DirBlockNo(m: Builder, dir: Loc, i: int) returns (bno: int)
    requires DirOk(m, dir) && 0 <= i < FileAt(m.V(), dir).size / BY2BLK
    ensures bno == PtrOf(m.V(), dir, i) && 0 <= bno < |m.blocks|
  {
    KidHere(m, dir, i, 0);
    hide Inv, FileAt, PtrOf, CanPut;
    bno := if i < NDIRECT then m.Get(dir).direct[i] else AsEnts(m.blocks[m.Get(dir).indirect])[i];
  }

  lemma RecsHere(m: Builder, dir: Loc, i: int, bno: int)
    requires DirOk(m, dir) && 0 <= i < FileAt(m.V(), dir).size / BY2BLK && bno == PtrOf(m.V(), dir, i)
    ensures 0 <= bno < |m.blocks| && |AsRecs(m.blocks[bno])| == FILE2BLK
    ensures forall j :: 0 <= j < FILE2BLK ==> AsRecs(m.blocks[bno])[j].name == KidName(m.V(), dir, i * FILE2BLK + j)
  {
    KidHere(m, dir, i, 0);
    hide Inv, FileAt, PtrOf, CanPut;
    forall j | 0 <= j < FILE2BLK ensures AsRecs(m.blocks[bno])[j].name == KidName(m.V(), dir, i * FILE2BLK + j) {
      KidHere(m, dir, i, j);
    }
  }

  lemma UnusedHere(m: Builder, dir: Loc, i: int, j: int, bno: int, recs: seq<File>)
    requires DirOk(m, dir) && 0 <= i < FileAt(m.V(), dir).size / BY2BLK && bno == PtrOf(m.V(), dir, i)
    requires 0 <= j <= FILE2BLK
    requires |recs| == FILE2BLK && forall j :: 0 <= j < FILE2BLK ==>
      recs[j].name == KidName(m.V(), dir, i * FILE2BLK + j)
    requires (forall k :: 0 <= k < j ==> recs[k].name != "") && (j < FILE2BLK ==> recs[j].name == "")
    ensures j < FILE2BLK ==> NewKid(m, dir, At(bno, j), i * FILE2BLK + j)
    ensures NamedRange(m.V(), dir, i * FILE2BLK, i * FILE2BLK + j)
  {
    if j < FILE2BLK {
      assert (i * FILE2BLK + j) / FILE2BLK == i && (i * FILE2BLK + j) % FILE2BLK == j;
      KidIsEmpty(m, dir, i, j, bno);
    }
    hide DirOk, KidName, NewKid;
    forall q | i * FILE2BLK <= q < i * FILE2BLK + j ensures KidName(m.V(), dir, q) != "" {
      assert recs[q - i * FILE2BLK].name == KidName(m.V(), dir, i * FILE2BLK + (q - i * FILE2BLK));
    }
  }

  lemma KidIsEmpty(m: Builder, dir: Loc, i: int, j: int, bno: int)
    requires DirOk(m, dir) && 0 <= i < FileAt(m.V(), dir).size / BY2BLK && 0 <= j < FILE2BLK
    requires bno == PtrOf(m.V(), dir, i) && FileAt(m.V(), At(bno, j)).name == ""
    ensures NewKid(m, dir, At(bno, j), i * FILE2BLK + j)
  {
    KidHere(m, dir, i, j);
    assert (i * FILE2BLK + j) / FILE2BLK == i;
  }

  lemma LaterSame(s: Fs)
    ensures Later(s, s)
  {
    forall x ensures KeptRec(s, s, x) {}
  }

  /** What create_file leaves of a directory of `n` entries: the n-th record is there, without a name. */
  ghost predicate HasRoom(s: Fs, dir: Loc, n: int) {
    n >= 0 && FileAt(s, dir).size == (n / FILE2BLK + 1) * BY2BLK && NamedUpTo(s, dir, n)
  }

  /** The n-th record is free for a new entry of the directory, and nothing else has changed since s. */
  ghost predicate RecordAt(m: Builder, s: Fs, dir: Loc, file: Loc, q: int, n: nat)
    reads m
  {
    && DirOk(m, dir) && Later(s, m.V()) && NewKid(m, dir, file, q) && q == n && FileAt(s, file).name == ""
    && HasRoom(m.V(), dir, n) && Others(s, m.V(), dir)
  }

  /** create_file takes the first unused record, and stops exactly when it needs a block and there is none for it. */
  method CreateFile(m: Builder, dir: Loc, ghost n: nat) returns (ok: bool, file: Loc, ghost q: int)
    requires DirOk(m, dir) && Packed(m.V(), dir, n)
    modifies m`blocks, m`nextbno, m`root, m`owner
    ensures ok <==> n / FILE2BLK < NINDIRECT && old(m.nextbno) + RecCost(n) <= NBLOCK
    ensures ok ==> RecordAt(m, old(m.V()), dir, file, q, n) && m.nextbno == old(m.nextbno) + RecCost(n)
  {
    ghost var s := m.V();
    SizeOk(s, m.owner, dir);
    var nblk := m.Get(dir).size / BY2BLK;
    hide Inv, FileAt, PtrOf, CanPut, DirOk, NewKid, Packed, NamedRange, RecordAt, RecCost, LinkCost;
    var i, j, bno := FindUnused(m, dir, nblk);
    if i < nblk {
      FirstUnused(m, dir, At(bno, j), i * FILE2BLK + j, n);
      return true, At(bno, j), i * FILE2BLK + j;
    }
    NoneUnused(s, dir, nblk, n);
    ok, file, q := CreateInNew(m, dir, nblk, n);
  }

  /** The scan of the directory's blocks. */
  method FindUnused(m: Builder, dir: Loc, nblk: int) returns (i: int, j: int, bno: int)
    requires DirOk(m, dir) && nblk == FileAt(m.V(), dir).size / BY2BLK
    ensures 0 <= i <= nblk || i == 0
    ensures i < nblk ==> NewKid(m, dir, At(bno, j), i * FILE2BLK + j) && NamedRange(m.V(), dir, 0, i * FILE2BLK + j)
    ensures i >= nblk ==> NamedRange(m.V(), dir, 0, nblk * FILE2BLK)
  {
    NamedNone(m.V(), dir, 0);
    SizeOk(m.V(), m.owner, dir);
    hide Inv, FileAt, PtrOf, CanPut, DirOk, NewKid, NamedRange;
    i, j, bno := 0, 0, 0;
    while i < nblk
      invariant 0 <= i <= nblk && NamedRange(m.V(), dir, 0, i * FILE2BLK)
    {
      j, bno := UnusedNext(m, dir, i);
      if j < FILE2BLK { return; }
      i := i + 1;
    }
  }

  /** One turn of the loop. */
  method UnusedNext(m: Builder, dir: Loc, i: int) returns (j: int, bno: int)
    requires DirOk(m, dir) && 0 <= i < FileAt(m.V(), dir).size / BY2BLK && NamedRange(m.V(), dir, 0, i * FILE2BLK)
    ensures 0 <= j <= FILE2BLK && NamedRange(m.V(), dir, 0, i * FILE2BLK + j)
    ensures j < FILE2BLK ==> NewKid(m, dir, At(bno, j), i * FILE2BLK + j)
    ensures j >= FILE2BLK ==> NamedRange(m.V(), dir, 0, (i + 1) * FILE2BLK)
  {
    hide Inv, FileAt, PtrOf, CanPut, DirOk, NewKid, NamedRange;
    j, bno := UnusedIn(m, dir, i);
    MoreNamed(m.V(), dir, 0, i * FILE2BLK, i * FILE2BLK + j);
    assert (i + 1) * FILE2BLK == i * FILE2BLK + FILE2BLK;
  }

  /** ... in a new block. */
  method CreateInNew(m: Builder, dir: Loc, nblk: int, ghost n: nat) returns (ok: bool, file: Loc, ghost q: int)
    requires DirOk(m, dir) && Packed(m.V(), dir, n) && n == nblk * FILE2BLK && nblk == FileAt(m.V(), dir).size / BY2BLK
    modifies m`blocks, m`nextbno, m`root, m`owner
    ensures ok <==> nblk < NINDIRECT && old(m.nextbno) + LinkCost(nblk) <= NBLOCK
    ensures ok ==> RecordAt(m, old(m.V()), dir, file, q, n) && m.nextbno == old(m.nextbno) + LinkCost(nblk)
  {
    hide Inv, FileAt, PtrOf, CanPut, DirOk, Later, NewKid, Others, Packed, NamedUpTo, KidName, HasRoom, DirMore;
    ghost var s := m.V();
    var bno;
    ok, bno := MakeLinkBlock(m, dir, nblk);
    file, q := At(bno, 0), nblk * FILE2BLK;
    if ok {
      NewIsEmpty(m, s, dir, nblk, bno);
      Unnamed(m, s, dir, file, q);
      RoomMade(s, m.V(), dir, nblk, n);
    }
  }

  lemma MoreNamed(s: Fs, dir: Loc, lo: int, mid: int, hi: int)
    requires NamedRange(s, dir, lo, mid) && NamedRange(s, dir, mid, hi)
    ensures NamedRange(s, dir, lo, hi)
  {
    hide KidName;
  }

  lemma PackedBlocks(s: Fs, dir: Loc, n: nat)
    requires Packed(s, dir, n)
    ensures var nblk := FileAt(s, dir).size / BY2BLK;
      && nblk == (n + FILE2BLK - 1) / FILE2BLK && NKids(s, dir) == nblk * FILE2BLK
      && (n % FILE2BLK == 0 ==> nblk == n / FILE2BLK) && (n % FILE2BLK != 0 ==> nblk == n / FILE2BLK + 1)
      && nblk * FILE2BLK >= n
  {
    hide FileAt;
  }

  lemma FirstUnused(m: Builder, dir: Loc, file: Loc, q: int, n: nat)
    requires DirOk(m, dir) && Packed(m.V(), dir, n) && NewKid(m, dir, file, q) && NamedRange(m.V(), dir, 0, q)
    ensures q == n && n / FILE2BLK < NINDIRECT && RecCost(n) == 0 && m.nextbno <= NBLOCK
    ensures RecordAt(m, m.V(), dir, file, q, n)
  {
    var s := m.V();
    LaterSame(s);
    OthersSelf(s, dir);
    PackedBlocks(s, dir, n);
    DirEnd(s, m.owner, dir);
    assert KidName(s, dir, q) == "";
    hide FileAt, PtrOf, Inv, NoGaps, Later, Others;
    assert n <= q;
    var x := KidName(s, dir, n);
  }

  lemma NoneUnused(s: Fs, dir: Loc, nblk: int, n: nat)
    requires Packed(s, dir, n) && nblk == FileAt(s, dir).size / BY2BLK && NamedRange(s, dir, 0, nblk * FILE2BLK)
    ensures n == nblk * FILE2BLK && n % FILE2BLK == 0 && n / FILE2BLK == nblk && RecCost(n) == LinkCost(nblk)
  {
    PackedBlocks(s, dir, n);
    hide FileAt, KidName;
    var x := KidName(s, dir, n);
  }

  lemma RoomMade(s: Fs, s': Fs, dir: Loc, nblk: int, n: nat)
    requires Packed(s, dir, n) && n == nblk * FILE2BLK && nblk == FileAt(s, dir).size / BY2BLK
    requires FileAt(s', dir).size == FileAt(s, dir).size + BY2BLK && DirMore(s, s', dir, nblk)
    ensures HasRoom(s', dir, n)
  {
    PackedBlocks(s, dir, n);
    hide FileAt, KidName;
  }

  lemma NewIsEmpty(m: Builder, s: Fs, dir: Loc, nblk: int, bno: int)
    requires DirOk(m, dir) && 0 <= nblk < NKids(m.V(), dir) / FILE2BLK && bno == PtrOf(m.V(), dir, nblk) != 0
    requires 0 <= bno < |m.blocks| && m.blocks[bno] == Zero
    ensures NewKid(m, dir, At(bno, 0), nblk * FILE2BLK)
  {
    SizeOk(m.V(), m.owner, dir);
    assert FileAt(m.V(), At(bno, 0)) == Blank;
    KidIsEmpty(m, dir, nblk, 0, bno);
  }

  lemma Unnamed(m: Builder, s: Fs, dir: Loc, file: Loc, q: int)
    requires Later(s, m.V()) && NewKid(m, dir, file, q)
    ensures FileAt(s, file).name == ""
  {
    assert FileAt(m.V(), file).name == "";
    assert FileAt(s, file).name != "" ==> KeptRec(s, m.V(), file);
  }

  // ---- a regular file ----

  /** What the reads and links of a file's first `i` blocks leave; s0 is the state before the file. */
  ghost predicate Writing(s0: Fs, s: Fs, owner: Owner, n: int, file: Loc, name: string, bytes: seq<bv8>, i: int) {
    && Inv(s, owner) && AllLinked(s, owner, n) && NoGaps(s) && Later(s0, s) && FileAt(s0, file).name == ""
    && Named(s, file) && FileAt(s, file).name == name && FileAt(s, file).kind == Reg && FileAt(s, file).size == |bytes|
    && (forall k {:trigger Cell(s, file, k)} :: 0 <= k < i ==> Cell(s, file, k) == Data(Chunk(bytes, k)))
    && (forall k {:trigger PtrOf(s, file, k)} :: k >= i ==> PtrOf(s, file, k) == 0)
  }

  /** A file block linked and its data in place. */
  lemma WriteLinked(s: Fs, owner: Owner, p: int, file: Loc, i: int, b: Block)
    requires CanLink(s, owner, file, i, p) && p >= 3 && AllLinked(s, owner, p) && NoGaps(s)
    requires FileAt(s, file).kind == Reg && b.Data? && BlockOk(b)
    ensures |Linked(s, file, i, p).blocks| == |s.blocks|
    ensures var l, o := Linked(s, file, i, p), LinkedOwner(s, owner, file, i, p); var s' := PutBlk(l, p, b);
            && Filled(s, l, file, i) && Inv(s', o) && Named(s', file) && SameHead(FileAt(s, file), FileAt(s', file))
            && AllLinked(s', o, p + if NeedsInd(s, file, i) then 2 else 1)
            && (forall x {:trigger FileAt(s', x)} :: FileAt(s', x) == FileAt(l, x))
            && (forall x, k {:trigger PtrOf(s', x, k)} :: PtrOf(s', x, k) == PtrOf(l, x, k))
            && (forall x, k {:trigger Cell(s', x, k)} ::
                 Cell(s', x, k) == if x == file && k == i then b else Cell(l, x, k))
  {
    var l, o := Linked(s, file, i, p), LinkedOwner(s, owner, file, i, p);
    hide Inv, Linked, LinkedOwner, FileAt, Ptr, PtrOf, Cell, Filled, NoGaps, AllLinked;
    LinkedInv(s, owner, file, i, p);
    LinkedAll(s, owner, file, i, p);
    FilledHead(s, l, file, i);
    hide CanLink;
    PutDataInv(l, o, file, i, b);
    assert Named(PutBlk(l, p, b), file);
  }

  lemma WriteStep(s0: Fs, s: Fs, owner: Owner, p: int, file: Loc, name: string, bytes: seq<bv8>, i: int)
    requires Writing(s0, s, owner, p, file, name, bytes, i) && CanLink(s, owner, file, i, p) && p >= 3
    ensures |Linked(s, file, i, p).blocks| == |s.blocks|
    ensures var s' := PutBlk(Linked(s, file, i, p), p, Data(Chunk(bytes, i)));
            && Writing(s0, s', LinkedOwner(s, owner, file, i, p), p + if NeedsInd(s, file, i) then 2 else 1, file,
                       name, bytes, i + 1)
            && Others(s, s', Null)
  {
    var b := Data(Chunk(bytes, i));
    var l := Linked(s, file, i, p);
    hide Inv, Linked, LinkedOwner, FileAt, Ptr, PtrOf, Cell, PutBlk, Named, Later, AllLinked, IndsUsed, NoGaps, Others;
    hide Filled, SameHead, CanLink, NeedsInd, Live, InUse, Chunk, CanPut;
    WriteInd(s0, s, owner, p, file, name, bytes, i);
    WriteLinked(s, owner, p, file, i, b);
    var s' := PutBlk(l, p, b);
    FilledLater(s, l, file, i);
    LaterThen(s0, s, l);
    WriteLater(s0, l, s', file, i, b);
    LinkedFull(s, owner, file, i, p);
    DataFull(l, s');
    WriteOthers(s, l, s', file, i);
    WriteReads(s, l, s', file, bytes, i);
  }

  lemma WriteOthers(s: Fs, l: Fs, s': Fs, file: Loc, i: int)
    requires Filled(s, l, file, i) && FileAt(s, file).kind == Reg
    requires forall x {:trigger FileAt(s', x)} :: FileAt(s', x) == FileAt(l, x)
    requires forall x, k {:trigger PtrOf(s', x, k)} :: PtrOf(s', x, k) == PtrOf(l, x, k)
    ensures Others(s, s', Null)
  {
    hide *;
    FilledOthers(s, l, file, i);
    ReadsSame(l, s');
    OthersThen(s, l, s', Null);
  }

  /** The blocks before the i-th read as before, those after it are missing. */
  lemma WriteReads(s: Fs, l: Fs, s': Fs, file: Loc, bytes: seq<bv8>, i: int)
    requires i >= 0 && FileAt(s, file).kind == Reg && Filled(s, l, file, i)
    requires forall x, k {:trigger Cell(s', x, k)} ::
               Cell(s', x, k) == if x == file && k == i then Data(Chunk(bytes, i)) else Cell(l, x, k)
    requires forall x, k {:trigger PtrOf(s', x, k)} :: PtrOf(s', x, k) == PtrOf(l, x, k)
    requires forall k {:trigger Cell(s, file, k)} :: 0 <= k < i ==> Cell(s, file, k) == Data(Chunk(bytes, k))
    requires forall k {:trigger PtrOf(s, file, k)} :: k >= i ==> PtrOf(s, file, k) == 0
    ensures forall k {:trigger Cell(s', file, k)} :: 0 <= k < i + 1 ==> Cell(s', file, k) == Data(Chunk(bytes, k))
    ensures forall k {:trigger PtrOf(s', file, k)} :: k >= i + 1 ==> PtrOf(s', file, k) == 0
  {
    hide Cell, PtrOf, FileAt, Ptr;
    forall k | 0 <= k < i + 1 ensures Cell(s', file, k) == Data(Chunk(bytes, k)) {
      if k < i { assert Cell(s, file, k) == Data(Chunk(bytes, k)); }
    }
    forall k | k >= i + 1 ensures PtrOf(s', file, k) == 0 { assert PtrOf(s, file, k) == 0; }
  }

  /** The file's own indirect block comes with its eleventh block. */
  lemma WriteInd(s0: Fs, s: Fs, owner: Owner, p: int, file: Loc, name: string, bytes: seq<bv8>, i: int)
    requires Writing(s0, s, owner, p, file, name, bytes, i) && i >= 0
    ensures NeedsInd(s, file, i) <==> i == NDIRECT
  {
    if i > NDIRECT { assert Cell(s, file, NDIRECT) == Data(Chunk(bytes, NDIRECT)); }
    assert PtrOf(s, file, i) == 0;
    hide Inv, FileAt, Ptr, PtrOf, Later, AllLinked;
    IndWhen(s, owner, file, i);
  }

  lemma LinkedFull(s: Fs, owner: Owner, file: Loc, i: int, p: int)
    requires CanLink(s, owner, file, i, p) && NoGaps(s) && (NeedsInd(s, file, i) ==> i == NDIRECT)
    ensures NoGaps(Linked(s, file, i, p))
  {
    var l := Linked(s, file, i, p);
    LinkedInds(s, owner, file, i, p);
    LinkedInv(s, owner, file, i, p);
    hide FileAt, PtrOf, Cell, Linked, Inv, CanLink;
    forall x, k | FileAt(l, x).kind == Dir && 0 <= k < FileAt(l, x).size / BY2BLK ensures PtrOf(l, x, k) != 0 {
      assert SameHead(FileAt(s, x), FileAt(l, x));
      assert PtrOf(s, x, k) != 0;
    }
  }

  lemma DataFull(l: Fs, s': Fs)
    requires NoGaps(l) && forall x {:trigger FileAt(s', x)} :: FileAt(s', x) == FileAt(l, x)
    requires forall x, k {:trigger PtrOf(s', x, k)} :: PtrOf(s', x, k) == PtrOf(l, x, k)
    ensures NoGaps(s')
  {
    forall x ensures Ptr(s', Ind(x)) == Ptr(l, Ind(x)) { assert FileAt(s', x) == FileAt(l, x); }
    hide FileAt, Ptr, PtrOf;
    forall x | Ptr(s', Ind(x)) != 0 ensures PtrOf(s', x, NDIRECT) != 0 {
      assert Ptr(l, Ind(x)) != 0 && PtrOf(l, x, NDIRECT) != 0;
    }
    forall x, k | FileAt(s', x).kind == Dir && 0 <= k < FileAt(s', x).size / BY2BLK ensures PtrOf(s', x, k) != 0 {
      assert PtrOf(l, x, k) != 0;
    }
  }

  lemma WriteLater(s0: Fs, l: Fs, s': Fs, file: Loc, i: int, b: Block)
    requires Later(s0, l) && FileAt(s0, file).name == ""
    requires forall x {:trigger FileAt(s', x)} :: FileAt(s', x) == FileAt(l, x)
    requires forall x, k {:trigger PtrOf(s', x, k)} :: PtrOf(s', x, k) == PtrOf(l, x, k)
    requires forall x, k {:trigger Cell(s', x, k)} :: Cell(s', x, k) == if x == file && k == i then b else Cell(l, x, k)
    ensures Later(s0, s')
  {
    forall x | FileAt(s0, x).name != "" ensures KeptRec(s0, s', x) {
      assert FileAt(s', x) == FileAt(l, x);
      assert KeptRec(s0, l, x);
      hide FileAt, PtrOf, Cell;
    }
  }

  /** A head for an empty record. */
  ghost predicate HeadFor(s: Fs, file: Loc, f: File) {
    && FileOk(f) && f.direct == FileAt(s, file).direct && f.indirect == FileAt(s, file).indirect && f.name != ""
    && (f.kind == Dir ==> f.size == 0)
  }

  lemma NameReq(s: Fs, owner: Owner, dir: Loc, q: int, f: File)
    requires EmptyKid(s, owner, dir, q) && HeadFor(s, KidLoc(s, dir, q), f)
    ensures HeadReq(s, owner, KidLoc(s, dir, q), f) && Empty(s, KidLoc(s, dir, q)) && Used(s, KidLoc(s, dir, q))
  {
    TouchReq(s, owner, dir, q);
    assert PtrOf(s, dir, q / FILE2BLK) != 0;
  }

  lemma NameKid(s: Fs, owner: Owner, dir: Loc, q: int, f: File)
    requires EmptyKid(s, owner, dir, q) && HeadFor(s, KidLoc(s, dir, q), f) && NoGaps(s)
    ensures var file := KidLoc(s, dir, q); var s' := PutFile(s, file, f);
            && Inv(s', owner) && SamePtrs(s, s') && s'.free == s.free && Named(s', file) && FileAt(s', file) == f
            && NoGaps(s') && Later(s, s') && Empty(s', file) && Others(s, s', dir)
            && (HasRoom(s, dir, q) && file != dir ==> Packed(s', dir, q + 1) && KidLoc(s', dir, q) == file)
  {
    var file := KidLoc(s, dir, q);
    var s' := PutFile(s, file, f);
    NameReq(s, owner, dir, q, f);
    HeadInv(s, owner, file, f);
    HeadView(s, owner, file, f);
    assert Named(s', file);
    assert FileAt(s, file).name == "";
    NameOthers(s, s', owner, dir, q, f);
    if HasRoom(s, dir, q) && file != dir { NamePacked(s, s', owner, dir, q, f); }
    assert IndsUsed(s') by { NameInds(s, s'); }
    hide Inv, PutFile, FileAt, Ptr, PtrOf, HeadReq, CanPut, EmptyKid, Others, Packed, HasRoom, IndsUsed;
    forall x | FileAt(s, x).name != "" ensures KeptRec(s, s', x) {
      forall k ensures FileAt(s, x).kind == Reg ==> Cell(s', x, k) == Cell(s, x, k) {
        HeadCell(s, owner, file, f, x, k);
      }
      assert FileAt(s', x) == FileAt(s, x);
    }
    forall k ensures PtrOf(s', file, k) == 0 { assert PtrOf(s, file, k) == 0; }
    forall x, k | FileAt(s', x).kind == Dir && 0 <= k < FileAt(s', x).size / BY2BLK ensures PtrOf(s', x, k) != 0 {
      assert PtrOf(s', x, k) == PtrOf(s, x, k);
    }
  }

  lemma NameInds(s: Fs, s': Fs)
    requires IndsUsed(s) && SamePtrs(s, s') && forall x, k {:trigger PtrOf(s', x, k)} ::
      PtrOf(s', x, k) == PtrOf(s, x, k)
    ensures IndsUsed(s')
  {
    hide PtrOf, Ptr;
    forall x | Ptr(s', Ind(x)) != 0 ensures PtrOf(s', x, NDIRECT) != 0 { assert Ptr(s', Ind(x)) == Ptr(s, Ind(x)); }
  }

  /** A new name is seen in its directory only. */
  lemma NameOthers(s: Fs, s': Fs, o: Owner, dir: Loc, q: int, f: File)
    requires Inv(s, o) && q >= 0 && PtrOf(s, dir, q / FILE2BLK) != 0 && FileAt(s, KidLoc(s, dir, q)).name == ""
    requires forall x {:trigger FileAt(s', x)} :: FileAt(s', x) == if x == KidLoc(s, dir, q) then f else FileAt(s, x)
    requires forall x, k {:trigger PtrOf(s', x, k)} :: PtrOf(s', x, k) == PtrOf(s, x, k)
    ensures Others(s, s', dir)
  {
    OwnedOf(s, o);
    var file := KidLoc(s, dir, q);
    hide Inv, PtrOf, FileAt, Owned;
    forall x | FileAt(s, x).name != "" && x != dir ensures DirSame(s, s', x) {
      forall p | p >= 0 ensures KidName(s', x, p) == KidName(s, x, p) {
        assert PtrOf(s', x, p / FILE2BLK) == PtrOf(s, x, p / FILE2BLK);
        if KidLoc(s, x, p) == file { SameCell(s, o, x, p / FILE2BLK, dir, q / FILE2BLK); }
      }
    }
  }

  lemma NamePacked(s: Fs, s': Fs, o: Owner, dir: Loc, q: int, f: File)
    requires Inv(s, o) && HasRoom(s, dir, q) && PtrOf(s, dir, q / FILE2BLK) != 0 && f.name != ""
    requires KidLoc(s, dir, q) != dir
    requires forall x {:trigger FileAt(s', x)} :: FileAt(s', x) == if x == KidLoc(s, dir, q) then f else FileAt(s, x)
    requires forall x, k {:trigger PtrOf(s', x, k)} :: PtrOf(s', x, k) == PtrOf(s, x, k)
    ensures Packed(s', dir, q + 1) && KidLoc(s', dir, q) == KidLoc(s, dir, q)
  {
    OwnedOf(s, o);
    var file := KidLoc(s, dir, q);
    assert KidLoc(s', dir, q) == file && FileAt(s', dir) == FileAt(s, dir);
    hide Inv, PtrOf, FileAt, Owned, NKids, HasRoom, Packed;
    forall p | p >= 0 ensures KidName(s', dir, p) == if p == q then f.name else KidName(s, dir, p) {
      assert PtrOf(s', dir, p / FILE2BLK) == PtrOf(s, dir, p / FILE2BLK);
      if PtrOf(s, dir, p / FILE2BLK) != 0 { KidsApart(s, o, dir, p, q); }
    }
    PackedNext(s, s', dir, q, f.name);
  }

  lemma PackedNext(s: Fs, s': Fs, dir: Loc, q: int, name: string)
    requires HasRoom(s, dir, q) && FileAt(s', dir).size == FileAt(s, dir).size && name != ""
    requires forall p {:trigger KidName(s', dir, p)} :: p >= 0 ==>
      KidName(s', dir, p) == if p == q then name else KidName(s, dir, p)
    ensures Packed(s', dir, q + 1)
  {
    hide FileAt, KidName;
  }

  lemma NamedRoom(m: Builder, s: Fs, dir: Loc, q: int, f: File)
    requires m.Valid() && EmptyKid(m.V(), m.owner, dir, q) && s == PutFile(m.V(), KidLoc(m.V(), dir, q), f)
    ensures |s.blocks| == NBLOCK && forall b {:trigger s.blocks[b]} :: m.nextbno <= b < NBLOCK ==> s.blocks[b] == Zero
  {
    assert InUse(m.V(), PtrOf(m.V(), dir, q / FILE2BLK));
  }

  /** One block of the file: what was read goes into the next block, which is then taken and linked. */
  method WriteBlock(m: Builder, file: Loc, name: string, bytes: seq<bv8>, i: int, ghost s0: Fs) returns (ok: bool)
    requires m.Room() && Writing(s0, m.V(), m.owner, m.nextbno, file, name, bytes, i) && 0 <= i < NBlock(|bytes|)
    modifies m`blocks, m`nextbno, m`root, m`owner
    ensures ok <==> i < NINDIRECT && old(m.nextbno) + LinkCost(i) <= NBLOCK
    ensures ok ==> m.Room() && Writing(s0, m.V(), m.owner, m.nextbno, file, name, bytes, i + 1)
    ensures ok ==> m.nextbno == old(m.nextbno) + LinkCost(i) && Others(old(m.V()), m.V(), Null)
  {
    ghost var s, o := m.V(), m.owner;
    if m.nextbno >= NBLOCK { return false; }
    WriteReady(s, o, m.nextbno, file, name, bytes, i, s0);
    WriteInd(s0, s, o, m.nextbno, file, name, bytes, i);
    hide Inv, FileAt, Ptr, PtrOf, AllLinked, Later, Link, Linked, LinkedOwner, NoGaps, Live, CanLinkRaw, Writing;
    hide CanPut, NeedsInd;
    hide Others;
    var bno;
    m.blocks := m.blocks[m.nextbno := Data(Chunk(bytes, i))];
    ok, bno := m.NextBlock();
    assert m.V() == PutBlk(AllocBlk(s, bno), bno, Data(Chunk(bytes, i)));
    ok := m.SaveBlockLink(file, i, bno);
    if !ok { return; }
    m.owner := LinkedOwner(s, o, file, i, bno);
    WriteDone(m, s, o, bno, file, name, bytes, i, s0);
  }

  lemma WriteReady(s: Fs, o: Owner, p: int, file: Loc, name: string, bytes: seq<bv8>, i: int, s0: Fs)
    requires Writing(s0, s, o, p, file, name, bytes, i) && Start(s, o, p) && 0 <= i < NBlock(|bytes|)
    ensures var x := AllocBlk(s, p); var y := PutBlk(x, p, Data(Chunk(bytes, i)));
            && y == Fs(s.blocks[p := Data(Chunk(bytes, i))], FreeFrom(p)[p := false], s.root)
            && CanPut(y, file) && NeedsInd(y, file, i) == NeedsInd(s, file, i)
            && (i < NINDIRECT && (NeedsInd(y, file, i) ==> p + 1 < NBLOCK) ==>
                  CanLink(s, o, file, i, p) && CanLinkRaw(y, file, i, p)
                  && |Linked(s, file, i, p).blocks| == NBLOCK
                  && Link(y, file, i, p) == PutBlk(Linked(s, file, i, p), p, Data(Chunk(bytes, i))))
  {
    var x := AllocBlk(s, p);
    var b := Data(Chunk(bytes, i));
    LinkPossible(s, o, file, i, p);
    PutDataView(x, p, b);
    var y := PutBlk(x, p, b);
    assert x.blocks[p := b] == s.blocks[p := b];
    assert Ptr(y, Ind(file)) == Ptr(x, Ind(file)) && FileAt(y, file) == FileAt(x, file);
    RawCanPut(x, file, p, b);
    if i < NINDIRECT && (NeedsInd(s, file, i) ==> p + 1 < NBLOCK) {
      assert CanLink(s, o, file, i, p);
      hide Inv, FileAt, Ptr, PtrOf, AllLinked, Later, Link, Linked, NoGaps, Live, CanPut, Writing;
      LinkedIs(s, o, file, i, p);
      LinkData(x, file, i, p, b);
      LinkedInv(s, o, file, i, p);
    }
  }

  lemma RawCanPut(x: Fs, file: Loc, p: int, b: Block)
    requires CanPut(x, file) && Live(x, file) && 0 <= p < |x.blocks| && x.blocks[p] == Zero && Fits(Reg, b)
    ensures CanPut(PutBlk(x, p, b), file)
  {}

  lemma WriteDone(m: Builder, s: Fs, o: Owner, p: int, file: Loc, name: string, bytes: seq<bv8>, i: int, s0: Fs)
    requires Writing(s0, s, o, p, file, name, bytes, i) && Start(s, o, p) && CanLink(s, o, file, i, p)
    requires |Linked(s, file, i, p).blocks| == NBLOCK
    requires m.V() == PutBlk(Linked(s, file, i, p), p, Data(Chunk(bytes, i)))
    requires m.owner == LinkedOwner(s, o, file, i, p) && m.nextbno <= NBLOCK
    requires m.nextbno == p + if NeedsInd(s, file, i) then 2 else 1
    ensures m.Room() && Writing(s0, m.V(), m.owner, m.nextbno, file, name, bytes, i + 1) && Others(s, m.V(), Null)
  {
    WriteStep(s0, s, o, p, file, name, bytes, i);
    forall k | m.nextbno <= k < NBLOCK ensures m.blocks[k] == Zero {
      assert s.blocks[k] == Zero;
      RoomKept(s, o, file, i, p, k);
    }
  }

  lemma StartWrite(m: Builder, dir: Loc, file: Loc, q: int, name: string, bytes: seq<bv8>)
    requires DirOk(m, dir) && NewKid(m, dir, file, q) && name != "" && HasRoom(m.V(), dir, q)
    ensures CanPut(m.V(), file) && FileAt(m.V(), file).name == ""
    ensures var s := PutFile(m.V(), file, FileAt(m.V(), file).(name := name, size := |bytes|, kind := Reg));
            && Others(m.V(), s, dir) && Packed(s, dir, q + 1) && file == KidLoc(s, dir, q)
            && FileAt(s, dir).name != "" && FileAt(s, dir).kind == Dir
            && Writing(m.V(), s, m.owner, m.nextbno, file, name, bytes, 0) && |s.blocks| == NBLOCK
            && s.free == FreeFrom(m.nextbno)
            && forall b {:trigger s.blocks[b]} :: m.nextbno <= b < NBLOCK ==> s.blocks[b] == Zero
  {
    var f := FileAt(m.V(), file).(name := name, size := |bytes|, kind := Reg);
    TouchReq(m.V(), m.owner, dir, q);
    assert file != dir;
    NameKid(m.V(), m.owner, dir, q, f);
    NamedRoom(m, PutFile(m.V(), file, f), dir, q, f);
  }

  lemma NamedLive(s: Fs, owner: Owner, x: Loc)
    requires Inv(s, owner) && FileAt(s, x).name != ""
    ensures Live(s, x)
  {
    if x.At? { assert BlockOk(s.blocks[x.blk]); }
  }

  /** The directory and its record, after more has been written. */
  lemma DirKept(m: Builder, s1: Fs, dir: Loc, file: Loc, q: int)
    requires m.Valid() && Later(s1, m.V()) && FileAt(s1, dir).name != "" && FileAt(s1, dir).kind == Dir
    requires 0 <= q < NKids(s1, dir) && file == KidLoc(s1, dir, q) && PtrOf(s1, dir, q / FILE2BLK) != 0
    ensures DirOk(m, dir) && 0 <= q < NKids(m.V(), dir) && file == KidLoc(m.V(), dir, q)
    ensures PtrOf(m.V(), dir, q / FILE2BLK) != 0
  {
    assert KeptRec(s1, m.V(), dir);
    NamedLive(m.V(), m.owner, dir);
    assert PtrOf(m.V(), dir, q / FILE2BLK) == PtrOf(s1, dir, q / FILE2BLK);
  }

  /**
    write_file, as the n-th entry of its directory. It stops exactly when the file is too large for a record or
    the disk has too few blocks left for it.
   */
  method WriteFile(m: Builder, dir: Loc, name: string, bytes: seq<bv8>, ghost n: nat) returns (ok: bool)
    requires DirOk(m, dir) && name != "" && Packed(m.V(), dir, n)
    modifies m`blocks, m`nextbno, m`root, m`owner
    ensures ok <==> FitsAs(HFile(name, bytes), n, old(m.nextbno))
    ensures ok ==> DirOk(m, dir) && Added(old(m.V()), m.V(), dir, n, HFile(name, bytes))
    ensures ok ==> m.nextbno == old(m.nextbno) + RecCost(n) + Need(HFile(name, bytes))
  {
    var file;
    ghost var q: int;
    ghost var s0 := m.V();
    ok, file, q := CreateFile(m, dir, n);
    if !ok { return; }
    ghost var s1 := m.V();
    StartWrite(m, dir, file, q, name, bytes);
    hide Inv, FileAt, Ptr, PtrOf, AllLinked, Later, NoGaps, Live, Writing, CanPut, EmptyKid, NKids, KidLoc, Others;
    hide Packed, HasRoom, Added;
    m.Put(file, m.Get(file).(name := name, size := |bytes|, kind := Reg));
    ghost var s2 := m.V();
    ok := WriteBlocks(m, file, name, bytes, s1);
    if ok { WriteFinished(m, s0, s1, s2, dir, file, q, name, bytes); }
  }

  /** The loop of write_file. */
  method WriteBlocks(m: Builder, file: Loc, name: string, bytes: seq<bv8>, ghost s1: Fs) returns (ok: bool)
    requires m.Room() && Writing(s1, m.V(), m.owner, m.nextbno, file, name, bytes, 0)
    modifies m`blocks, m`nextbno, m`root, m`owner
    ensures ok <==> NBlock(|bytes|) <= NINDIRECT && old(m.nextbno) + BlocksFor(NBlock(|bytes|)) <= NBLOCK
    ensures ok ==> m.Room() && Writing(s1, m.V(), m.owner, m.nextbno, file, name, bytes, NBlock(|bytes|))
    ensures ok ==> Others(old(m.V()), m.V(), Null) && m.nextbno == old(m.nextbno) + BlocksFor(NBlock(|bytes|))
  {
    ghost var s2 := m.V();
    OthersSelf(s2, Null);
    RoomLeft(m);
    hide Builder.Room, Writing, Others;
    var i := 0;
    while i < NBlock(|bytes|)
      invariant 0 <= i <= NBlock(|bytes|) && i <= NINDIRECT && m.nextbno <= NBLOCK
      invariant m.Room() && Writing(s1, m.V(), m.owner, m.nextbno, file, name, bytes, i) && Others(s2, m.V(), Null)
      invariant m.nextbno == old(m.nextbno) + BlocksFor(i)
    {
      ghost var s := m.V();
      ok := WriteBlock(m, file, name, bytes, i, s1);
      if !ok { return; }
      OthersThen(s2, s, m.V(), Null);
      i := i + 1;
    }
    return true;
  }

  lemma RoomLeft(m: Builder)
    requires m.Room()
    ensures m.nextbno <= NBLOCK
  {}

  /** The directory has the host's entry as its n-th, and nothing else in the image has changed. */
  ghost predicate Added(s: Fs, s': Fs, dir: Loc, n: int, e: Host) {
    && Later(s, s') && Others(s, s', dir) && Packed(s', dir, n + 1) && HostAt(s', KidLoc(s', dir, n), e)
  }

  lemma WriteFinished(m: Builder, s0: Fs, s1: Fs, s2: Fs, dir: Loc, file: Loc, q: int, name: string, bytes: seq<bv8>)
    requires m.Room() && Writing(s1, m.V(), m.owner, m.nextbno, file, name, bytes, NBlock(|bytes|)) && Later(s0, s1)
    requires FileAt(s1, dir).name != "" && FileAt(s1, dir).kind == Dir && name != ""
    requires 0 <= q < NKids(s1, dir) && file == KidLoc(s1, dir, q) && PtrOf(s1, dir, q / FILE2BLK) != 0
    requires Others(s0, s1, dir) && Others(s1, s2, dir) && Packed(s2, dir, q + 1) && Others(s2, m.V(), Null)
    requires FileAt(s2, dir).name != "" && FileAt(s2, dir).kind == Dir
    ensures DirOk(m, dir) && Added(s0, m.V(), dir, q, HFile(name, bytes))
  {
    LaterThen(s0, s1, m.V());
    DirKept(m, s1, dir, file, q);
    assert DirSame(s2, m.V(), dir);
    PackedSame(s2, m.V(), dir, q + 1);
    OthersWiden(s2, m.V(), dir);
    OthersThen(s0, s1, s2, dir);
    OthersThen(s0, s2, m.V(), dir);
    assert WrittenAt(m.V(), KidLoc(m.V(), dir, q), name, bytes);
  }

  lemma OthersWiden(s: Fs, s': Fs, d: Loc)
    requires Others(s, s', Null)
    ensures Others(s, s', d)
  {
    forall x | FileAt(s, x).name != "" && FileAt(s, x).kind == Dir ensures DirSame(s, s', x) {
      assert FileAt(s, Null).name == "";
    }
  }

  // ---- a directory and all under it ----

  predicate Names(e: Host)
    decreases e
  {
    0 < |e.name| < 128 && (e.HDir? ==> forall j :: 0 <= j < |e.entries| ==> Names(e.entries[j]))
  }

  lemma StartDir(m: Builder, s0: Fs, dir: Loc, file: Loc, q: int, name: string)
    requires DirOk(m, dir) && NewKid(m, dir, file, q) && name != "" && Later(s0, m.V()) && HasRoom(m.V(), dir, q)
    ensures CanPut(m.V(), file) && FileAt(m.V(), file).name == ""
    ensures var s := PutFile(m.V(), file, FileAt(m.V(), file).(name := name, kind := Dir));
            && Inv(s, m.owner) && AllLinked(s, m.owner, m.nextbno) && NoGaps(s) && Later(m.V(), s) && Later(s0, s)
            && Named(s, file) && FileAt(s, file).name == name && FileAt(s, file).kind == Dir && |s.blocks| == NBLOCK
            && s.free == FreeFrom(m.nextbno)
            && forall b {:trigger s.blocks[b]} :: m.nextbno <= b < NBLOCK ==> s.blocks[b] == Zero
    ensures var s := PutFile(m.V(), file, FileAt(m.V(), file).(name := name, kind := Dir));
            && Others(m.V(), s, dir) && Packed(s, dir, q + 1) && file == KidLoc(s, dir, q) && Packed(s, file, 0)
            && FileAt(s, dir).name != "" && FileAt(s, dir).kind == Dir && file != dir
  {
    var f := FileAt(m.V(), file).(name := name, kind := Dir);
    TouchReq(m.V(), m.owner, dir, q);
    assert FileAt(m.V(), file).size == 0;
    assert file != dir;
    NameKid(m.V(), m.owner, dir, q, f);
    NamedRoom(m, PutFile(m.V(), file, f), dir, q, f);
    LaterThen(s0, m.V(), PutFile(m.V(), file, f));
    NewPacked(PutFile(m.V(), file, f), file);
  }

  lemma NewPacked(s: Fs, dir: Loc)
    requires FileAt(s, dir).size == 0
    ensures Packed(s, dir, 0)
  {
    assert NKids(s, dir) == 0;
    hide FileAt, KidName;
  }

  ghost predicate Entries(s: Fs, dir: Loc, es: seq<Host>, n: int) {
    forall j {:trigger es[j]} :: 0 <= j < n && j < |es| ==> HostAt(s, KidLoc(s, dir, j), es[j])
  }

  /** The entries so far stay as they are when one more is added. */
  lemma EntriesMore(s: Fs, s': Fs, o: Owner, dir: Loc, es: seq<Host>, n: int)
    requires Inv(s, o) && Entries(s, dir, es, n) && FileAt(s, dir).name != "" && 0 <= n < |es|
    requires Added(s, s', dir, n, es[n])
    ensures Entries(s', dir, es, n + 1)
  {
    assert KeptRec(s, s', dir);
    hide Inv, Later, Others, FileAt, PtrOf, KidLoc, Packed;
    forall j | 0 <= j < n ensures HostAt(s', KidLoc(s', dir, j), es[j]) {
      HostNamed(s, KidLoc(s, dir, j), es[j]);
      KidDeeper(s, o, dir, j);
      KidStays(s, s', dir, j);
      HostKept(s, s', o, dir, KidLoc(s, dir, j), es[j]);
    }
  }

  /** write_directory, as the n-th entry; it stops exactly when what is under it does not fit. */
  method WriteDirectory(m: Builder, dir: Loc, host: Host, ghost n: nat) returns (ok: bool)
    requires DirOk(m, dir) && Names(host) && host.HDir? && Packed(m.V(), dir, n)
    modifies m`blocks, m`nextbno, m`root, m`owner
    ensures ok <==> FitsAs(host, n, old(m.nextbno))
    ensures ok ==> DirOk(m, dir) && Added(old(m.V()), m.V(), dir, n, host)
    ensures ok ==> m.nextbno == old(m.nextbno) + RecCost(n) + Need(host)
    decreases host, 1
  {
    var pdir;
    ghost var q: int;
    ghost var s0 := m.V();
    ok, pdir, q := CreateFile(m, dir, n);
    if !ok { return; }
    ghost var s1 := m.V();
    StartDir(m, s0, dir, pdir, q, host.name);
    ghost var s2 := PutFile(m.V(), pdir, FileAt(m.V(), pdir).(name := host.name, kind := Dir));
    m.Put(pdir, m.Get(pdir).(name := host.name, kind := Dir));
    assert DirOk(m, pdir) && m.V() == s2;
    NameEach(host);
    ghost var b := m.nextbno;
    hide *;
    ok := WriteEntries(m, pdir, host.entries, s2);
    FitsDir(host, n);
    if ok {
      EntriesDone(m, s2, pdir, host.entries, b);
      DirFinished(m, s0, s1, s2, dir, pdir, q, host);
    }
  }

  lemma NameEach(host: Host)
    requires Names(host) && host.HDir?
    ensures host.name != "" && forall j :: 0 <= j < |host.entries| ==> Names(host.entries[j])
  {}

  lemma FitsDir(host: Host, n: nat)
    requires host.HDir?
    ensures Need(host) == NeedAll(host.entries, |host.entries|)
    ensures forall next: int :: n / FILE2BLK < NINDIRECT ==>
      (FitAll(host.entries, next + RecCost(n)) <==> FitsAs(host, n, next))
  {}

  /** The entries of a new directory, one after another. */
  method WriteEntries(m: Builder, pdir: Loc, es: seq<Host>, ghost s2: Fs) returns (ok: bool)
    requires DirOk(m, pdir) && m.V() == s2 && Packed(s2, pdir, 0) && forall j :: 0 <= j < |es| ==> Names(es[j])
    modifies m`blocks, m`nextbno, m`root, m`owner
    ensures ok <==> FitAll(es, old(m.nextbno))
    ensures ok ==> EntriesAt(m, s2, pdir, es, |es|, old(m.nextbno))
    decreases es, 1
  {
    ghost var next := m.nextbno;
    EntriesStart(m, s2, pdir, es);
    hide EntriesAt, FitAll, Names, DirOk, Packed;
    var j := 0;
    while j < |es|
      invariant 0 <= j <= |es| && EntriesAt(m, s2, pdir, es, j, next)
    {
      ok := EntryStep(m, pdir, es, j, s2, next);
      if !ok { return; }
      j := j + 1;
    }
    EntriesDone(m, s2, pdir, es, next);
    return true;
  }

  /** One turn of the loop. */
  method EntryStep(m: Builder, pdir: Loc, es: seq<Host>, j: nat, ghost s2: Fs, ghost next: int) returns (ok: bool)
    requires j < |es| && Names(es[j]) && EntriesAt(m, s2, pdir, es, j, next)
    modifies m`blocks, m`nextbno, m`root, m`owner
    ensures !ok ==> !FitAll(es, next)
    ensures ok ==> EntriesAt(m, s2, pdir, es, j + 1, next)
    decreases es, 0
  {
    hide Inv, FileAt, Later, Others, Packed, Entries, Added, FitsAs, FitAll, DirOk, EntriesAt, Need, NeedAll;
    hide SmallAll, RecCost, Names;
    ghost var s, o, b := m.V(), m.owner, m.nextbno;
    EntriesNow(m, s2, pdir, es, j, next);
    ok := WriteEntry(m, pdir, es[j], j);
    if ok { EntriesNext(m, s2, s, o, pdir, es, j, next, b); }
  }

  /** The first `j` entries are in the directory, which was empty in s2, with `next` the next free block. */
  ghost predicate EntriesAt(m: Builder, s2: Fs, dir: Loc, es: seq<Host>, j: int, next: int)
    reads m
  {
    && 0 <= j <= |es| && DirOk(m, dir) && Later(s2, m.V()) && Others(s2, m.V(), dir) && Packed(m.V(), dir, j)
    && Entries(m.V(), dir, es, j) && m.nextbno == next + NeedAll(es, j) && SmallAll(es, j)
  }

  lemma EntriesStart(m: Builder, s2: Fs, dir: Loc, es: seq<Host>)
    requires DirOk(m, dir) && m.V() == s2 && Packed(s2, dir, 0)
    ensures EntriesAt(m, s2, dir, es, 0, m.nextbno)
  {
    LaterSame(s2);
    OthersSelf(s2, dir);
    hide Later, Others, Packed, DirOk;
  }

  lemma EntriesNow(m: Builder, s2: Fs, dir: Loc, es: seq<Host>, j: nat, next: int)
    requires EntriesAt(m, s2, dir, es, j, next) && j < |es|
    ensures DirOk(m, dir) && Packed(m.V(), dir, j) && Inv(m.V(), m.owner) && FileAt(m.V(), dir).name != ""
    ensures Later(s2, m.V()) && Others(s2, m.V(), dir) && Entries(m.V(), dir, es, j)
    ensures m.nextbno == next + NeedAll(es, j) && SmallAll(es, j)
    ensures FitAll(es, next) ==> FitsAs(es[j], j, m.nextbno)
  {
    hide Later, Others, Packed, Entries;
    FitsNow(es, j, next);
  }

  lemma EntriesNext(m: Builder, s2: Fs, s: Fs, o: Owner, dir: Loc, es: seq<Host>, j: nat, next: int, b: int)
    requires j < |es| && Inv(s, o) && FileAt(s, dir).name != "" && Later(s2, s) && Others(s2, s, dir)
    requires Entries(s, dir, es, j)
    requires b == next + NeedAll(es, j) && SmallAll(es, j)
    requires DirOk(m, dir) && Added(s, m.V(), dir, j, es[j]) && FitsAs(es[j], j, b)
    requires m.nextbno == b + RecCost(j) + Need(es[j])
    ensures EntriesAt(m, s2, dir, es, j + 1, next)
  {
    hide Inv, Later, Others, Packed, Entries, Added, DirOk, FileAt;
    EntriesMore(s, m.V(), o, dir, es, j);
    AddedThen(s2, s, m.V(), dir, j, es[j]);
  }

  lemma EntriesDone(m: Builder, s2: Fs, dir: Loc, es: seq<Host>, next: int)
    requires EntriesAt(m, s2, dir, es, |es|, next)
    ensures DirOk(m, dir) && Later(s2, m.V()) && Others(s2, m.V(), dir) && Packed(m.V(), dir, |es|)
    ensures Entries(m.V(), dir, es, |es|) && m.nextbno == next + NeedAll(es, |es|) && FitAll(es, next)
  {
    hide Later, Others, Packed, Entries, Inv, NeedAll, SmallAll;
  }

  /** One argument of the builder, or one entry of a directory. */
  method WriteEntry(m: Builder, dir: Loc, host: Host, ghost n: nat) returns (ok: bool)
    requires DirOk(m, dir) && Names(host) && Packed(m.V(), dir, n)
    modifies m`blocks, m`nextbno, m`root, m`owner
    ensures ok <==> FitsAs(host, n, old(m.nextbno))
    ensures ok ==> DirOk(m, dir) && Added(old(m.V()), m.V(), dir, n, host)
    ensures ok ==> m.nextbno == old(m.nextbno) + RecCost(n) + Need(host)
    decreases host, 2
  {
    hide Inv, Added, Packed, FitsAs, Need, RecCost, DirOk;
    match host {
      case HDir(_, _) => ok := WriteDirectory(m, dir, host, n);
      case HFile(name, bytes) => ok := WriteFile(m, dir, name, bytes, n);
    }
  }

  lemma AddedThen(s2: Fs, s: Fs, s': Fs, dir: Loc, n: int, e: Host)
    requires Later(s2, s) && Others(s2, s, dir) && Added(s, s', dir, n, e)
    ensures Later(s2, s') && Others(s2, s', dir) && Packed(s', dir, n + 1)
  {
    hide Later, Others, Packed;
    LaterThen(s2, s, s');
    OthersThen(s2, s, s', dir);
  }

  lemma DirFinished(m: Builder, s0: Fs, s1: Fs, s2: Fs, dir: Loc, pdir: Loc, q: int, host: Host)
    requires host.HDir? && DirOk(m, pdir) && Later(s2, m.V()) && Entries(m.V(), pdir, host.entries, |host.entries|)
    requires Later(s0, s1) && Later(s1, s2) && FileAt(s2, pdir).name == host.name != "" && FileAt(s2, pdir).kind == Dir
    requires FileAt(s1, dir).name != "" && FileAt(s1, dir).kind == Dir
    requires 0 <= q < NKids(s1, dir) && pdir == KidLoc(s1, dir, q) && PtrOf(s1, dir, q / FILE2BLK) != 0
    requires Others(s0, s1, dir) && Others(s1, s2, dir) && Others(s2, m.V(), pdir)
    requires Packed(m.V(), pdir, |host.entries|)
    requires FileAt(s0, pdir).name == "" && Packed(s2, dir, q + 1) && dir != pdir
    requires FileAt(s2, dir).name != "" && FileAt(s2, dir).kind == Dir
    ensures DirOk(m, dir) && Added(s0, m.V(), dir, q, host)
  {
    LaterThen(s1, s2, m.V());
    LaterThen(s0, s1, m.V());
    DirKept(m, s1, dir, pdir, q);
    assert KeptRec(s2, m.V(), pdir);
    assert FileAt(m.V(), KidLoc(m.V(), dir, q)).name == host.name;
    assert DirSame(s2, m.V(), dir);
    PackedSame(s2, m.V(), dir, q + 1);
    OthersThen(s0, s1, s2, dir);
    OthersInner(s0, s2, m.V(), dir, pdir);
  }

  // ---- the bitmap, and the server that starts from the image ----

  /** flush_bitmap: exactly the blocks before nextbno lose their bit. */
  method FlushBitmap(m: Builder)
    requires m.Valid() && m.bitmap == seq(BIT2BLK, b => b < NBLOCK)
    modifies m`bitmap
    ensures |m.bitmap| == BIT2BLK && forall b :: 0 <= b < BIT2BLK ==> m.bitmap[b] == (m.nextbno <= b < NBLOCK)
  {
    var i := 0;
    while i < m.nextbno
      invariant 0 <= i <= m.nextbno && |m.bitmap| == BIT2BLK
      invariant forall b :: 0 <= b < BIT2BLK ==> m.bitmap[b] == (i <= b < NBLOCK)
    {
      m.bitmap := m.bitmap[i := false];
      i := i + 1;
    }
  }

  /**
    The builder's main: every argument becomes an entry of the root directory, then the bitmap is written. An
    image comes out exactly when all of it fits.
   */
  method Build(hosts: seq<Host>) returns (ok: bool, m: Builder)
    requires forall j :: 0 <= j < |hosts| ==> Names(hosts[j])
    ensures fresh(m) && (ok <==> FitAll(hosts, 3))
    ensures ok ==> m.Valid() && Packed(m.V(), Root, |hosts|) && Entries(m.V(), Root, hosts, |hosts|)
    ensures ok ==> m.nextbno == 3 + NeedAll(hosts, |hosts|) && FileAt(m.V(), Root).kind == Dir
    ensures ok ==> |m.bitmap| == BIT2BLK && forall b :: 0 <= b < BIT2BLK ==> m.bitmap[b] == (m.nextbno <= b < NBLOCK)
  {
    m := new Builder();
    ghost var s := m.V();
    hide Inv, FileAt, NoGaps, AllLinked, Packed, EntriesAt, FitAll, Entries, Later, Others, NeedAll;
    ok := WriteEntries(m, Root, hosts, s);
    if !ok { return; }
    EntriesDone(m, s, Root, hosts, 3);
    FlushBitmap(m);
  }

  /** The image is a good disk: a server that starts from it is in a valid state, and its free blocks are
      those the builder did not take. */
  method Boot(m: Builder) returns (srv: Server)
    requires m.Valid() && |m.bitmap| == BIT2BLK
    requires forall b :: 0 <= b < BIT2BLK ==> m.bitmap[b] == (m.nextbno <= b < NBLOCK)
    ensures fresh(srv) && srv.Valid() && srv.V() == m.V()
  {
    assert m.bitmap[..NBLOCK] == FreeFrom(m.nextbno);
    srv := new Server(m.blocks, m.bitmap[..NBLOCK], m.root, m.owner);
  }

  /** Of the blocks from 3 on, exactly those before nextbno are in a slot, and each in exactly one. */
  lemma LinkedOnce(m: Builder, b: int, t: Slot)
    requires m.Valid() && 3 <= b < NBLOCK
    ensures b in m.owner && b < m.nextbno ==> (Ptr(m.V(), t) == b <==> t == m.owner[b].slot)
    ensures b < m.nextbno <==> b in m.owner && Ptr(m.V(), m.owner[b].slot) == b
  {
    assert b in m.owner && Ptr(m.V(), m.owner[b].slot) == b ==> InUse(m.V(), b);
    assert InUse(m.V(), b) <==> b < m.nextbno;
  }

  /** What the server's file_map_block returns for a file of the image is the block with its bytes. */
  method ReadFile(m: Server, x: Loc, ghost name: string, ghost bytes: seq<bv8>, i: int) returns (bno: int)
    requires m.Valid() && m.Handle(x) && WrittenAt(m.V(), x, name, bytes) && 0 <= i < NBlock(|bytes|)
    modifies m
    ensures m.Valid() && m.V() == old(m.V()) && m.Handle(x) && old(m.cache.Keys) <= m.cache.Keys
    ensures bno in m.cache && m.cache[bno] == Data(Chunk(bytes, i))
  {
    assert Cell(m.V(), x, i) == Data(Chunk(bytes, i));
    var r;
    r, bno := FileMapBlock(m, x, i, false);
    m.ReadBlock(bno);
  }
}
