/** What the image builder leaves on the disk. */
module Image {
  // It is a state of the file server that satisfies the server's own invariant, in which the files read back as
  // they were written (tools/fsformat.c).

  import opened FsModel
  import opened FsOps
  import opened FsFile
  import opened FsTree
  import opened FsDir

  const NBLOCK := 1024

  // ---- linking one more block ----

  predicate NeedsInd(s: Fs, loc: Loc, i: int) { i >= NDIRECT && Ptr(s, Ind(loc)) == 0 }

  /** save_block_link for a block taken just before: an indirect block, if one is needed, is the next one. */
  function WithInd(s: Fs, loc: Loc, i: int, p: int): Fs
    requires 0 <= p < |s.blocks| == |s.free| && (NeedsInd(s, loc, i) ==> p + 1 < |s.blocks|)
  {
    var s1 := AllocBlk(s, p);
    if NeedsInd(s, loc, i) && CanSet(AllocBlk(s1, p + 1), Ind(loc))
    then SetPtr(AllocBlk(s1, p + 1), Ind(loc), p + 1) else s1
  }

  ghost predicate CanLink(s: Fs, owner: Owner, loc: Loc, i: int, p: int) {
    && Inv(s, owner) && Named(s, loc) && 0 <= i < NINDIRECT && i < Cap(FileAt(s, loc)) && PtrOf(s, loc, i) == 0
    && 0 <= p < |s.blocks| && s.free[p] && (NeedsInd(s, loc, i) ==> p + 1 < |s.blocks| && s.free[p + 1])
  }

  function WithIndOwner(s: Fs, owner: Owner, loc: Loc, i: int, p: int): Owner {
    if NeedsInd(s, loc, i) then Own(owner, Ind(loc), p + 1) else owner
  }

  lemma WithIndInv(s: Fs, owner: Owner, loc: Loc, i: int, p: int)
    requires CanLink(s, owner, loc, i, p)
    ensures var s2 := WithInd(s, loc, i, p);
            && Inv(s2, WithIndOwner(s, owner, loc, i, p)) && Spare(s2, p) && CanFill(s2, loc, i)
            && PtrOf(s2, loc, i) == 0 && Fills(s, s2, loc, i) && NoLeak(s, s2, p)
  {
    WithIndFills(s, owner, loc, i, p);
    var s1 := AllocBlk(s, p);
    AllocInv(s, owner, p);
    AllocFilled(s, owner, p, loc, i);
    AllocAt(s, p);
    assert Live(s1, loc) && FileAt(s1, loc) == FileAt(s, loc) && Ptr(s1, Ind(loc)) == Ptr(s, Ind(loc));
    if NeedsInd(s, loc, i) {
      IndNew(s1, owner, loc, i, p + 1);
      var s2 := SetPtr(AllocBlk(s1, p + 1), Ind(loc), p + 1);
      assert s2 == WithInd(s, loc, i, p);
      AllocInv(s1, owner, p + 1);
      AllocAt(s1, p + 1);
      IndSpare(AllocBlk(s1, p + 1), owner, loc, p + 1, p);
      FilledHead(s1, s2, loc, i);
      assert Ptr(s2, Ind(loc)) == p + 1;
      hide Inv, FileAt, PtrOf, Ptr, SetPtr, Fills, NoLeak;
    }
  }

  lemma WithIndFills(s: Fs, owner: Owner, loc: Loc, i: int, p: int)
    requires CanLink(s, owner, loc, i, p)
    ensures var s2 := WithInd(s, loc, i, p); Fills(s, s2, loc, i) && NoLeak(s, s2, p) && PtrOf(s2, loc, i) == 0
  {
    var s1 := AllocBlk(s, p);
    AllocInv(s, owner, p);
    AllocFilled(s, owner, p, loc, i);
    AllocAt(s, p);
    assert Live(s1, loc) && FileAt(s1, loc) == FileAt(s, loc) && Ptr(s1, Ind(loc)) == Ptr(s, Ind(loc));
    hide Inv, PtrOf, Fills, NoLeak;
    if NeedsInd(s, loc, i) {
      IndNew(s1, owner, loc, i, p + 1);
      FillsThen(s, s1, WithInd(s, loc, i, p), loc, i);
      LeakThen(s, s1, WithInd(s, loc, i, p), p);
    }
  }

  lemma IndSpare(s: Fs, owner: Owner, loc: Loc, q: int, p: int)
    requires IndReq(s, owner, loc, q) && q != 0 && InUse(s, p) && p >= Reserved(|s.blocks|) && s.blocks[p] == Zero
    requires p != q
    requires Unreferenced(s, p)
    ensures Spare(SetPtr(s, Ind(loc), q), p)
  {
    SetPtrAt(s, Ind(loc), q);
    LiveBlock(s, owner, loc);
  }

  function Linked(s: Fs, loc: Loc, i: int, p: int): Fs
    requires 0 <= p < |s.blocks| == |s.free| && (NeedsInd(s, loc, i) ==> p + 1 < |s.blocks|)
  {
    var s2 := WithInd(s, loc, i, p);
    if CanSet(s2, SlotOf(s2, loc, i)) then Fill(s2, loc, i, p) else s2
  }

  function LinkedOwner(s: Fs, owner: Owner, loc: Loc, i: int, p: int): Owner
    requires 0 <= p < |s.blocks| == |s.free| && (NeedsInd(s, loc, i) ==> p + 1 < |s.blocks|)
  {
    Own(WithIndOwner(s, owner, loc, i, p), SlotOf(WithInd(s, loc, i, p), loc, i), p)
  }

  lemma LinkedInv(s: Fs, owner: Owner, loc: Loc, i: int, p: int)
    requires CanLink(s, owner, loc, i, p)
    ensures var s' := Linked(s, loc, i, p);
            Inv(s', LinkedOwner(s, owner, loc, i, p)) && Filled(s, s', loc, i) && PtrOf(s', loc, i) == p
  {
    var s2 := WithInd(s, loc, i, p);
    var o2 := WithIndOwner(s, owner, loc, i, p);
    WithIndInv(s, owner, loc, i, p);
    CanFillCanSet(s2, o2, loc, i);
    LeakFill(s, s2, SlotOf(s2, loc, i), p);
    hide NoLeak;
    FillInv(s2, o2, loc, i, p);
    FillSpare(s, s2, o2, loc, i, p);
  }

  // ---- the builder's own order of steps ----

  ghost predicate CanLinkRaw(x: Fs, loc: Loc, i: int, p: int) {
    && Live(x, loc) && CanPut(x, loc) && |FileAt(x, loc).direct| == NDIRECT && 0 <= i < NINDIRECT
    && |x.blocks| == |x.free| && 0 < p < |x.blocks|
    && (NeedsInd(x, loc, i) ==> p + 1 < |x.blocks| && x.blocks[p + 1] == Zero)
    && (i >= NDIRECT && !NeedsInd(x, loc, i) ==> CanPutEnt(x, Ptr(x, Ind(loc)), i))
    && (NeedsInd(x, loc, i) && loc.At? ==> loc.blk != p + 1)
  }

  /** save_block_link once `p` is taken. */
  function WithInd1(x: Fs, loc: Loc, i: int, p: int): (y: Fs)
    requires CanLinkRaw(x, loc, i, p)
    ensures CanSet(y, SlotOf(y, loc, i))
  {
    if NeedsInd(x, loc, i) then SetPtr(AllocBlk(x, p + 1), Ind(loc), p + 1) else x
  }

  function Link(x: Fs, loc: Loc, i: int, p: int): Fs
    requires CanLinkRaw(x, loc, i, p)
  { Fill(WithInd1(x, loc, i, p), loc, i, p) }

  function SlotBlk(t: Slot): int {
    match t
    case Entry(b, _) => b
    case Direct(loc, _) => if loc.At? then loc.blk else 0
    case Ind(loc) => if loc.At? then loc.blk else 0
  }

  lemma SetPtrData(x: Fs, t: Slot, v: int, p: int, b: Block)
    requires CanSet(x, t) && 0 < p < |x.blocks| && SlotBlk(t) != p
    ensures CanSet(PutBlk(x, p, b), t) && |SetPtr(x, t, v).blocks| == |x.blocks|
    ensures SetPtr(PutBlk(x, p, b), t, v) == PutBlk(SetPtr(x, t, v), p, b)
  {
    assert SetPtr(PutBlk(x, p, b), t, v).blocks == PutBlk(SetPtr(x, t, v), p, b).blocks;
  }

  function Sized(x: Fs, loc: Loc, size: int): Fs
    requires CanPut(x, loc)
  { PutFile(x, loc, FileAt(x, loc).(size := size)) }

  lemma SizedAt(x: Fs, loc: Loc, size: int)
    requires CanPut(x, loc)
    ensures CanPut(Sized(x, loc, size), loc) && FileAt(Sized(x, loc, size), loc) == FileAt(x, loc).(size := size)
    ensures forall t {:trigger Ptr(Sized(x, loc, size), t)} :: Ptr(Sized(x, loc, size), t) == Ptr(x, t)
  {
    PutFileAt(x, loc, FileAt(x, loc).(size := size));
  }

  lemma PutTwice(x: Fs, loc: Loc, f: File, g: File)
    requires CanPut(x, loc)
    ensures CanPut(PutFile(x, loc, f), loc) && PutFile(PutFile(x, loc, f), loc, g) == PutFile(x, loc, g)
  {
    if loc.At? {
      assert AsRecs(x.blocks[loc.blk])[loc.j := f][loc.j := g] == AsRecs(x.blocks[loc.blk])[loc.j := g];
      assert PutFile(PutFile(x, loc, f), loc, g).blocks == PutFile(x, loc, g).blocks;
    }
  }

  lemma SetPtrSize(x: Fs, t: Slot, v: int, loc: Loc, size: int)
    requires CanSet(x, t) && Live(x, loc) && CanPut(x, loc)
    requires if t.Entry? then !In(loc, t.blk) else t.loc == loc
    ensures CanSet(Sized(x, loc, size), t) && CanPut(SetPtr(x, t, v), loc)
    ensures SetPtr(Sized(x, loc, size), t, v) == Sized(SetPtr(x, t, v), loc, size)
  {
    SizedAt(x, loc, size);
    assert Live(Sized(x, loc, size), loc);
    var f := FileAt(x, loc);
    match t
    case Entry(e, i) =>
      assert SetPtr(Sized(x, loc, size), t, v).blocks == Sized(SetPtr(x, t, v), loc, size).blocks;
    case Direct(l, i) =>
      var g := f.(direct := f.direct[i := v]);
      PutTwice(x, loc, f.(size := size), g.(size := size));
      PutTwice(x, loc, g, g.(size := size));
      PutFileAt(x, loc, g);
    case Ind(l) =>
      var g := f.(indirect := v);
      PutTwice(x, loc, f.(size := size), g.(size := size));
      PutTwice(x, loc, g, g.(size := size));
      PutFileAt(x, loc, g);
  }

  lemma AllocSize(x: Fs, q: int, loc: Loc, size: int)
    requires CanPut(x, loc) && 0 < q < |x.blocks| == |x.free| && !In(loc, q)
    ensures CanPut(AllocBlk(x, q), loc) && AllocBlk(Sized(x, loc, size), q) == Sized(AllocBlk(x, q), loc, size)
  {
    assert AllocBlk(Sized(x, loc, size), q).blocks == Sized(AllocBlk(x, q), loc, size).blocks;
  }

  /** It does not matter whether the block was filled with data before it was linked. */
  lemma LinkData(x: Fs, loc: Loc, i: int, p: int, b: Block)
    requires CanLinkRaw(x, loc, i, p) && x.blocks[p] == Zero && Fits(Reg, b)
    requires (loc.At? ==> loc.blk != p) && Ptr(x, Ind(loc)) != p
    ensures CanLinkRaw(PutBlk(x, p, b), loc, i, p)
    ensures |Link(x, loc, i, p).blocks| == |x.blocks|
    ensures Link(PutBlk(x, p, b), loc, i, p) == PutBlk(Link(x, loc, i, p), p, b)
  {
    WithIndData(x, loc, i, p, b);
    var x1 := WithInd1(x, loc, i, p);
    PutDataView(x1, p, b);
    assert SlotOf(PutBlk(x1, p, b), loc, i) == SlotOf(x1, loc, i) by {
      assert Ptr(PutBlk(x1, p, b), Ind(loc)) == Ptr(x1, Ind(loc));
    }
    SetPtrData(x1, SlotOf(x1, loc, i), p, p, b);
  }

  lemma RawData(x: Fs, loc: Loc, i: int, p: int, b: Block)
    requires CanLinkRaw(x, loc, i, p) && x.blocks[p] == Zero && Fits(Reg, b)
    requires (loc.At? ==> loc.blk != p) && Ptr(x, Ind(loc)) != p
    ensures CanLinkRaw(PutBlk(x, p, b), loc, i, p)
  {
    var y := PutBlk(x, p, b);
    PutDataView(x, p, b);
    assert FileAt(y, loc) == FileAt(x, loc) && Ptr(y, Ind(loc)) == Ptr(x, Ind(loc));
  }

  lemma WithIndData(x: Fs, loc: Loc, i: int, p: int, b: Block)
    requires CanLinkRaw(x, loc, i, p) && x.blocks[p] == Zero && Fits(Reg, b)
    requires (loc.At? ==> loc.blk != p) && Ptr(x, Ind(loc)) != p
    ensures CanLinkRaw(PutBlk(x, p, b), loc, i, p)
    ensures var x1 := WithInd1(x, loc, i, p);
            && |x1.blocks| == |x.blocks| && x1.blocks[p] == Zero && SlotBlk(SlotOf(x1, loc, i)) != p
            && WithInd1(PutBlk(x, p, b), loc, i, p) == PutBlk(x1, p, b)
  {
    PutDataView(x, p, b);
    RawData(x, loc, i, p, b);
    if NeedsInd(x, loc, i) {
      IndData(x, Ind(loc), p, b);
      SetPtrAt(AllocBlk(x, p + 1), Ind(loc), p + 1);
    }
    hide FileAt, Ptr, CanPut, CanPutEnt, Live, PutBlk;
  }

  lemma IndData(x: Fs, t: Slot, p: int, b: Block)
    requires 0 < p && p + 1 < |x.blocks| == |x.free| && SlotBlk(t) != p && CanSet(AllocBlk(x, p + 1), t)
    ensures CanSet(AllocBlk(PutBlk(x, p, b), p + 1), t)
    ensures var z := SetPtr(AllocBlk(x, p + 1), t, p + 1);
            && |z.blocks| == |x.blocks| && z.blocks[p] == x.blocks[p]
            && SetPtr(AllocBlk(PutBlk(x, p, b), p + 1), t, p + 1) == PutBlk(z, p, b)
  {
    assert AllocBlk(PutBlk(x, p, b), p + 1).blocks == PutBlk(AllocBlk(x, p + 1), p, b).blocks;
    SetPtrData(AllocBlk(x, p + 1), t, p + 1, p, b);
  }

  /** Nor whether the size was raised before or after. */
  lemma LinkSize(x: Fs, loc: Loc, i: int, p: int, size: int)
    requires CanLinkRaw(x, loc, i, p)
    ensures CanLinkRaw(Sized(x, loc, size), loc, i, p) && CanPut(Link(x, loc, i, p), loc)
    ensures Link(Sized(x, loc, size), loc, i, p) == Sized(Link(x, loc, i, p), loc, size)
  {
    WithIndSize(x, loc, i, p, size);
    var x1 := WithInd1(x, loc, i, p);
    assert CanSet(x1, SlotOf(x1, loc, i));
    hide CanSet, SetPtr, CanLinkRaw, WithInd1, FileAt, Ptr, Live, CanPut, Sized, NeedsInd;
    SizedAt(x1, loc, size);
    assert Ptr(Sized(x1, loc, size), Ind(loc)) == Ptr(x1, Ind(loc));
    SetPtrSize(x1, SlotOf(x1, loc, i), p, loc, size);
  }

  lemma WithIndSize(x: Fs, loc: Loc, i: int, p: int, size: int)
    requires CanLinkRaw(x, loc, i, p)
    ensures CanLinkRaw(Sized(x, loc, size), loc, i, p)
    ensures var x1 := WithInd1(x, loc, i, p);
            && CanPut(x1, loc) && Live(x1, loc) && WithInd1(Sized(x, loc, size), loc, i, p) == Sized(x1, loc, size)
            && (i >= NDIRECT ==> !(loc.At? && loc.blk == Ptr(x1, Ind(loc))))
  {
    SizedAt(x, loc, size);
    if NeedsInd(x, loc, i) {
      AllocSize(x, p + 1, loc, size);
      SetPtrSize(AllocBlk(x, p + 1), Ind(loc), p + 1, loc, size);
      SetPtrAt(AllocBlk(x, p + 1), Ind(loc), p + 1);
    }
  }

  /** Taking the block and linking it, in the builder's order and in the order of the invariant's lemmas. */
  lemma LinkedIs(s: Fs, owner: Owner, loc: Loc, i: int, p: int)
    requires CanLink(s, owner, loc, i, p) && p > 0 && (p + 1 < |s.blocks| ==> s.blocks[p + 1] == Zero)
    ensures var x := AllocBlk(s, p);
            && CanLinkRaw(x, loc, i, p) && Link(x, loc, i, p) == Linked(s, loc, i, p)
            && !In(loc, p) && Ptr(x, Ind(loc)) != p && x.blocks[p] == Zero
            && NeedsInd(x, loc, i) == NeedsInd(s, loc, i)
  {
    LinkedRaw(s, owner, loc, i, p);
    WithIndInv(s, owner, loc, i, p);
    hide Inv, FileAt, Ptr, CanPut, CanPutEnt, Live, Spare, Fills, CanFill, PtrOf;
    CanFillCanSet(WithInd(s, loc, i, p), WithIndOwner(s, owner, loc, i, p), loc, i);
  }

  lemma LinkedRaw(s: Fs, owner: Owner, loc: Loc, i: int, p: int)
    requires CanLink(s, owner, loc, i, p) && p > 0 && (p + 1 < |s.blocks| ==> s.blocks[p + 1] == Zero)
    ensures |s.blocks| == |s.free|
    ensures var x := AllocBlk(s, p);
            && CanLinkRaw(x, loc, i, p) && !In(loc, p) && Ptr(x, Ind(loc)) != p && x.blocks[p] == Zero
            && NeedsInd(x, loc, i) == NeedsInd(s, loc, i)
            && (NeedsInd(x, loc, i) ==> CanSet(AllocBlk(x, p + 1), Ind(loc)))
  {
    var x := AllocBlk(s, p);
    AllocInv(s, owner, p);
    AllocAt(s, p);
    assert Ptr(x, Ind(loc)) == Ptr(s, Ind(loc)) && FileAt(x, loc) == FileAt(s, loc);
    LiveBlock(x, owner, loc);
    assert FileOk(FileAt(x, loc)) by { if loc.At? { assert BlockOk(x.blocks[loc.blk]); } }
    if i >= NDIRECT && !NeedsInd(x, loc, i) { CanFillCanSet(x, owner, loc, i); }
    if NeedsInd(x, loc, i) {
      AllocInv(x, owner, p + 1);
      LiveBlock(AllocBlk(x, p + 1), owner, loc);
    }
  }

  // ---- what stays ----

  /** A named record of s is still there: a regular file with its size and contents, a directory with its
      blocks and at least its size. */
  ghost predicate KeptRec(s: Fs, s': Fs, x: Loc) {
    var f, g := FileAt(s, x), FileAt(s', x);
    && g.name == f.name && g.kind == f.kind && f.size <= g.size && (f.kind == Reg ==> g.size == f.size)
    && (forall k {:trigger PtrOf(s', x, k)} :: PtrOf(s, x, k) != 0 ==> PtrOf(s', x, k) == PtrOf(s, x, k))
    && (forall k {:trigger Cell(s', x, k)} :: f.kind == Reg ==> Cell(s', x, k) == Cell(s, x, k))
  }

  ghost predicate Later(s: Fs, s': Fs) {
    forall x {:trigger FileAt(s', x)} :: FileAt(s, x).name != "" ==> KeptRec(s, s', x)
  }

  lemma KeptThen(s: Fs, s1: Fs, s2: Fs, x: Loc)
    requires KeptRec(s, s1, x) && KeptRec(s1, s2, x)
    ensures KeptRec(s, s2, x)
  {
    hide PtrOf, Cell, FileAt;
    forall k ensures PtrOf(s, x, k) != 0 ==> PtrOf(s2, x, k) == PtrOf(s, x, k) {
      assert PtrOf(s, x, k) != 0 ==> PtrOf(s1, x, k) == PtrOf(s, x, k);
    }
    forall k ensures FileAt(s, x).kind == Reg ==> Cell(s2, x, k) == Cell(s, x, k) {
      assert FileAt(s, x).kind == Reg ==> Cell(s1, x, k) == Cell(s, x, k);
    }
  }

  lemma LaterThen(s: Fs, s1: Fs, s2: Fs)
    requires Later(s, s1) && Later(s1, s2)
    ensures Later(s, s2)
  {
    forall x | FileAt(s, x).name != "" ensures KeptRec(s, s2, x) {
      assert KeptRec(s, s1, x);
      assert FileAt(s1, x).name != "";
      assert KeptRec(s1, s2, x);
      KeptThen(s, s1, s2, x);
    }
  }

  lemma FilledLater(s: Fs, s': Fs, loc: Loc, i: int)
    requires Filled(s, s', loc, i)
    ensures Later(s, s')
  {
    forall x ensures KeptRec(s, s', x) {
      assert SameHead(FileAt(s, x), FileAt(s', x));
      hide PtrOf, Cell, FileAt;
    }
  }

  // ---- the contents of a file ----

  /** The i-th block of a byte string, filled up with zeros. */
  function Chunk(bytes: seq<bv8>, i: int): (c: seq<bv8>)
    requires i >= 0
    ensures |c| == BY2BLK
  {
    seq(BY2BLK, j requires 0 <= j < BY2BLK => if i * BY2BLK + j < |bytes| then bytes[i * BY2BLK + j] else 0)
  }

  /** A regular file with the name and the contents. */
  ghost predicate WrittenAt(s: Fs, x: Loc, name: string, bytes: seq<bv8>) {
    && FileAt(s, x).name == name && FileAt(s, x).kind == Reg && FileAt(s, x).size == |bytes|
    && forall i {:trigger Cell(s, x, i)} :: 0 <= i < NBlock(|bytes|) ==> Cell(s, x, i) == Data(Chunk(bytes, i))
  }

  /** So byte `k` of the file reads as byte `k` of what was written. */
  lemma ReadBack(s: Fs, x: Loc, name: string, bytes: seq<bv8>, k: int)
    requires WrittenAt(s, x, name, bytes) && 0 <= k < |bytes|
    ensures Cell(s, x, k / BY2BLK).Data? && |Cell(s, x, k / BY2BLK).bytes| == BY2BLK
    ensures Cell(s, x, k / BY2BLK).bytes[k % BY2BLK] == bytes[k] && k < FileAt(s, x).size
  {
    var i := k / BY2BLK;
    assert 0 <= i < NBlock(|bytes|);
    assert Cell(s, x, i) == Data(Chunk(bytes, i));
    assert Chunk(bytes, i)[k % BY2BLK] == bytes[k];
  }

  /** What the host hands the builder. */
  datatype Host = HFile(name: string, bytes: seq<bv8>) | HDir(name: string, entries: seq<Host>)

  // ---- directories as the builder leaves them ----

  /** The first `n` records have names and the others have none. */
  ghost predicate NamedUpTo(s: Fs, dir: Loc, n: int) {
    && (forall q {:trigger KidName(s, dir, q)} :: 0 <= q < n ==> KidName(s, dir, q) != "")
    && forall q {:trigger KidName(s, dir, q)} :: n <= q < NKids(s, dir) ==> KidName(s, dir, q) == ""
  }

  /** A directory of `n` entries: its first records, in as many blocks as they take. */
  ghost predicate Packed(s: Fs, dir: Loc, n: int) {
    n >= 0 && FileAt(s, dir).size == (n + FILE2BLK - 1) / FILE2BLK * BY2BLK && NamedUpTo(s, dir, n)
  }

  /** A directory reads the same: its head, and the names in it. */
  ghost predicate DirSame(s: Fs, s': Fs, x: Loc) {
    && SameFace(FileAt(s, x), FileAt(s', x))
    && forall q {:trigger KidName(s', x, q)} :: q >= 0 ==> KidName(s', x, q) == KidName(s, x, q)
  }

  /** Every directory but `d` reads the same. */
  ghost predicate Others(s: Fs, s': Fs, d: Loc) {
    forall x {:trigger FileAt(s', x)} :: FileAt(s, x).name != "" && FileAt(s, x).kind == Dir && x != d ==>
      DirSame(s, s', x)
  }

  lemma PackedSame(s: Fs, s': Fs, x: Loc, n: int)
    requires Packed(s, x, n) && DirSame(s, s', x)
    ensures Packed(s', x, n)
  {
    hide FileAt, KidName;
    assert NKids(s', x) == NKids(s, x);
    forall q | 0 <= q < NKids(s', x) || 0 <= q < n ensures KidName(s', x, q) == KidName(s, x, q) {}
  }

  lemma OthersSelf(s: Fs, d: Loc)
    ensures Others(s, s, d)
  {
    forall x ensures DirSame(s, s, x) {}
  }

  lemma OthersThen(s: Fs, s1: Fs, s2: Fs, d: Loc)
    requires Others(s, s1, d) && Others(s1, s2, d)
    ensures Others(s, s2, d)
  {
    forall x | FileAt(s, x).name != "" && FileAt(s, x).kind == Dir && x != d ensures DirSame(s, s2, x) {
      assert DirSame(s, s1, x);
      SameThen(s, s1, s2, x);
    }
  }

  /** ... with the second change inside a directory that had no name before. */
  lemma OthersInner(s: Fs, s1: Fs, s2: Fs, d: Loc, p: Loc)
    requires Others(s, s1, d) && Others(s1, s2, p) && FileAt(s, p).name == ""
    ensures Others(s, s2, d)
  {
    forall x | FileAt(s, x).name != "" && FileAt(s, x).kind == Dir && x != d ensures DirSame(s, s2, x) {
      assert DirSame(s, s1, x);
      SameThen(s, s1, s2, x);
    }
  }

  lemma SameThen(s: Fs, s1: Fs, s2: Fs, x: Loc)
    requires DirSame(s, s1, x) && FileAt(s, x).name != "" && FileAt(s, x).kind == Dir
    requires DirSame(s, s1, x) ==> DirSame(s1, s2, x)
    ensures DirSame(s, s2, x)
  {
    hide FileAt, KidName;
    forall q | q >= 0 ensures KidName(s2, x, q) == KidName(s, x, q) { assert KidName(s1, x, q) == KidName(s, x, q); }
  }

  /** Names and block numbers of a directory as before. */
  lemma NamesSame(s: Fs, s': Fs, x: Loc)
    requires SameFace(FileAt(s, x), FileAt(s', x)) && forall k {:trigger PtrOf(s', x, k)} ::
      PtrOf(s', x, k) == PtrOf(s, x, k)
    requires forall y {:trigger FileAt(s', y)} :: FileAt(s', y).name == FileAt(s, y).name
    ensures DirSame(s, s', x)
  {
    hide FileAt, PtrOf;
    forall q | q >= 0 ensures KidName(s', x, q) == KidName(s, x, q) {
      assert PtrOf(s', x, q / FILE2BLK) == PtrOf(s, x, q / FILE2BLK);
    }
  }

  lemma FilledOthers(s: Fs, s': Fs, loc: Loc, i: int)
    requires Filled(s, s', loc, i)
    ensures Others(s, s', loc) && (FileAt(s, loc).kind == Reg ==> Others(s, s', Null))
  {
    forall y ensures SameFace(FileAt(s, y), FileAt(s', y)) { assert SameHead(FileAt(s, y), FileAt(s', y)); }
    hide FileAt, PtrOf, Cell;
    forall x | x != loc ensures DirSame(s, s', x) {
      forall k ensures PtrOf(s', x, k) == PtrOf(s, x, k) {}
      NamesSame(s, s', x);
    }
  }

  /** Writing records that read the same, with the same numbers, changes no directory. */
  lemma ReadsSame(s: Fs, s': Fs)
    requires forall x {:trigger FileAt(s', x)} :: FileAt(s', x) == FileAt(s, x)
    requires forall x, k {:trigger PtrOf(s', x, k)} :: PtrOf(s', x, k) == PtrOf(s, x, k)
    ensures Others(s, s', Null)
  {
    hide FileAt, PtrOf;
    forall x ensures DirSame(s, s', x) {
      forall k ensures PtrOf(s', x, k) == PtrOf(s, x, k) {}
      forall y ensures FileAt(s', y).name == FileAt(s, y).name { assert FileAt(s', y) == FileAt(s, y); }
      NamesSame(s, s', x);
    }
  }

  // ---- what the host handed over, in the image ----

  /** Record `x` is the host's file, or its directory with exactly its entries, in their order. */
  ghost predicate HostAt(s: Fs, x: Loc, e: Host)
    decreases e
  {
    e.name != "" &&
    match e
    case HFile(name, bytes) => WrittenAt(s, x, name, bytes)
    case HDir(name, entries) =>
      && FileAt(s, x).name == name && FileAt(s, x).kind == Dir && Packed(s, x, |entries|)
      && forall j {:trigger entries[j]} :: 0 <= j < |entries| ==> HostAt(s, KidLoc(s, x, j), entries[j])
  }

  lemma HostNamed(s: Fs, x: Loc, e: Host)
    requires HostAt(s, x, e)
    ensures FileAt(s, x).name == e.name != ""
  {
  }

  /** What is in the image stays, while a directory above it is added to. */
  lemma {:induction false} HostKept(s: Fs, s': Fs, o: Owner, d: Loc, x: Loc, e: Host)
    requires Inv(s, o) && Later(s, s') && Others(s, s', d) && HostAt(s, x, e) && LocDepth(o, x) > LocDepth(o, d)
    ensures HostAt(s', x, e)
    decreases e
  {
    HostNamed(s, x, e);
    assert KeptRec(s, s', x);
    match e {
      case HFile(name, bytes) =>
        hide Later, FileAt, PtrOf, Cell, Inv, Others;
        forall i | 0 <= i < NBlock(|bytes|) ensures Cell(s', x, i) == Data(Chunk(bytes, i)) {
          assert Cell(s, x, i) == Data(Chunk(bytes, i));
        }
      case HDir(name, entries) =>
        assert DirSame(s, s', x);
        hide Later, FileAt, PtrOf, Cell, Inv, Others, KidLoc;
        PackedSame(s, s', x, |entries|);
        forall j | 0 <= j < |entries| ensures HostAt(s', KidLoc(s', x, j), entries[j]) {
          HostNamed(s, KidLoc(s, x, j), entries[j]);
          KidDeeper(s, o, x, j);
          KidStays(s, s', x, j);
          HostKept(s, s', o, d, KidLoc(s, x, j), entries[j]);
        }
    }
  }

  lemma KidStays(s: Fs, s': Fs, x: Loc, j: int)
    requires KeptRec(s, s', x) && j >= 0 && PtrOf(s, x, j / FILE2BLK) != 0
    ensures KidLoc(s', x, j) == KidLoc(s, x, j)
  {
    assert PtrOf(s', x, j / FILE2BLK) == PtrOf(s, x, j / FILE2BLK);
  }

  // ---- how many blocks a host tree takes ----

  /** Blocks for `n` file blocks, with the indirect block from the eleventh on. */
  function BlocksFor(n: nat): nat { n + if n > NDIRECT then 1 else 0 }

  /** What the n-th entry of a directory costs the directory: a block for each sixteen, and its indirect block. */
  function RecCost(n: nat): nat {
    if n % FILE2BLK != 0 then 0 else if n / FILE2BLK == NDIRECT then 2 else 1
  }

  function Need(e: Host): nat
    decreases e, 0
  {
    match e
    case HFile(_, bytes) => BlocksFor(NBlock(|bytes|))
    case HDir(_, entries) => NeedAll(entries, |entries|)
  }

  function NeedAll(es: seq<Host>, k: nat): nat
    requires k <= |es|
    decreases es, k
  {
    if k == 0 then 0 else NeedAll(es, k - 1) + RecCost(k - 1) + Need(es[k - 1])
  }

  /** Every file and directory has a size that a record can describe. */
  predicate Small(e: Host)
    decreases e, 0
  {
    match e
    case HFile(_, bytes) => NBlock(|bytes|) <= NINDIRECT
    case HDir(_, entries) => SmallAll(entries, |entries|)
  }

  predicate SmallAll(es: seq<Host>, k: nat)
    requires k <= |es|
    decreases es, k
  {
    k == 0 || (SmallAll(es, k - 1) && (k - 1) / FILE2BLK < NINDIRECT && Small(es[k - 1]))
  }

  /** The host's file or directory fits as the n-th entry, with block `next` the next free one. */
  predicate FitsAs(e: Host, n: nat, next: int) {
    n / FILE2BLK < NINDIRECT && Small(e) && next + RecCost(n) + Need(e) <= NBLOCK
  }

  predicate FitAll(es: seq<Host>, next: int) { SmallAll(es, |es|) && next + NeedAll(es, |es|) <= NBLOCK }

  lemma {:induction false} NeedMore(es: seq<Host>, j: nat, k: nat)
    requires j <= k <= |es|
    ensures NeedAll(es, j) <= NeedAll(es, k) && (SmallAll(es, k) ==> SmallAll(es, j))
    decreases k - j
  {
    if j < k { NeedMore(es, j, k - 1); }
  }

  /** An entry that does not fit where it comes is the end of the list too. */
  lemma FitsNow(es: seq<Host>, j: nat, next: int)
    requires j < |es|
    ensures FitAll(es, next) ==> FitsAs(es[j], j, next + NeedAll(es, j))
  {
    NeedMore(es, j + 1, |es|);
  }
}
