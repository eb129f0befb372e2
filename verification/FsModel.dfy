/**
  What the file server's blocks say (user/include/fs.h, fs/fs.c): the slots that hold block numbers, the
  flat view of a file, and the invariant of block ownership. Values only; the server is in FsServer.
 */
module FsModel {

  const BY2BLK := 4096
  const BIT2BLK := 8 * BY2BLK
  const NDIRECT := 10
  const NINDIRECT := BY2BLK / 4
  const FILE2BLK := 16

  datatype Kind = Reg | Dir

  /** Where a File record lives: in the super block, or as record `j` of block `blk`. */
  datatype Loc = Null | Root | At(blk: int, j: int)

  datatype File = File(name: string, size: int, kind: Kind, direct: seq<int>, indirect: int, dir: Loc)

  /** A block by what was last stored in it. An all-zero block reads as data, as no entries and as no files. */
  datatype Block = Zero | Data(bytes: seq<bv8>) | Index(ents: seq<int>) | Recs(recs: seq<File>)

  datatype Fs = Fs(blocks: seq<Block>, free: seq<bool>, root: File)

  /** The places that hold a block number: a direct or indirect field of a record, an entry of a block. */
  datatype Slot = Direct(loc: Loc, i: int) | Ind(loc: Loc) | Entry(blk: int, i: int)

  /** The slot that holds a block, and how deep in the tree that slot's file is. */
  datatype Claim = Claim(slot: Slot, depth: int)
  type Owner = map<int, Claim>

  const NoPtrs: seq<int> := Repeat(0, NDIRECT)
  const Blank := File("", 0, Reg, NoPtrs, 0, Null)
  const NoFiles: seq<File> := Repeat(Blank, FILE2BLK)
  const NoEnts: seq<int> := Repeat(0, NINDIRECT)

  function Repeat<T>(x: T, n: nat): (r: seq<T>)
    ensures |r| == n && forall i :: 0 <= i < n ==> r[i] == x
  {
    seq(n, i => x)
  }

  // ---- reading ----

  predicate InUse(s: Fs, b: int) { 0 < b < |s.blocks| && b < |s.free| && !s.free[b] }

  function FileAt(s: Fs, loc: Loc): File {
    match loc
    case Null => Blank
    case Root => s.root
    case At(b, j) =>
      if InUse(s, b) && s.blocks[b].Recs? && 0 <= j < |s.blocks[b].recs| then s.blocks[b].recs[j] else Blank
  }

  function Ptr(s: Fs, slot: Slot): int {
    match slot
    case Direct(loc, i) => if 0 <= i < |FileAt(s, loc).direct| then FileAt(s, loc).direct[i] else 0
    case Ind(loc) => FileAt(s, loc).indirect
    case Entry(b, i) =>
      if InUse(s, b) && s.blocks[b].Index? && 0 <= i < |s.blocks[b].ents| then s.blocks[b].ents[i] else 0
  }

  /** The slot of file block `i`: entry i of the indirect block for i >= NDIRECT. */
  function SlotOf(s: Fs, loc: Loc, i: int): Slot {
    if i < NDIRECT then Direct(loc, i) else Entry(Ptr(s, Ind(loc)), i)
  }

  function PtrOf(s: Fs, loc: Loc, i: int): int { Ptr(s, SlotOf(s, loc, i)) }

  /** What file block `i` of a file reads as; a hole reads as zeros. */
  function Cell(s: Fs, loc: Loc, i: int): Block {
    var p := PtrOf(s, loc, i);
    if p != 0 && 0 <= p < |s.blocks| then s.blocks[p] else Zero
  }

  predicate Live(s: Fs, loc: Loc) {
    loc == Root || (loc.At? && InUse(s, loc.blk) && s.blocks[loc.blk].Recs? && 0 <= loc.j < FILE2BLK)
  }

  // ---- the invariant ----

  function Reserved(n: int): int { 2 + n / BIT2BLK + 1 }

  predicate FileOk(f: File) { |f.direct| == NDIRECT && f.size >= 0 }

  ghost predicate BlockOk(b: Block) {
    match b
    case Zero => true
    case Data(bytes) => |bytes| == BY2BLK
    case Index(ents) => |ents| == NINDIRECT
    case Recs(recs) => |recs| == FILE2BLK && forall j :: 0 <= j < FILE2BLK ==> FileOk(recs[j])
  }

  ghost predicate Shape(s: Fs) {
    && |s.free| == |s.blocks| && FileOk(s.root) && Reserved(|s.blocks|) <= |s.blocks|
    && (forall b {:trigger s.free[b]} :: 0 <= b < |s.free| && s.free[b] ==> b >= Reserved(|s.blocks|))
    && (forall b {:trigger s.blocks[b]} :: 0 <= b < |s.blocks| ==> BlockOk(s.blocks[b]))
  }

  function BlkDepth(owner: Owner, b: int): int { if b in owner then owner[b].depth else 0 }

  function LocDepth(owner: Owner, loc: Loc): int { if loc.At? then BlkDepth(owner, loc.blk) else 0 }

  /** The depth of the blocks a slot may hold: one below its file's. */
  function SlotDepth(owner: Owner, t: Slot): int {
    match t
    case Direct(loc, _) => LocDepth(owner, loc) + 1
    case Ind(loc) => LocDepth(owner, loc) + 1
    case Entry(b, _) => BlkDepth(owner, b)
  }

  /** Every block number in a slot is a used block that no other slot holds, one level below its file: so
      no two slots share a block, and no directory is inside itself. */
  ghost predicate Owned(s: Fs, owner: Owner) {
    forall t {:trigger Ptr(s, t)} ::
      Ptr(s, t) != 0 ==>
        && InUse(s, Ptr(s, t)) && Ptr(s, t) >= Reserved(|s.blocks|)
        && Ptr(s, t) in owner && owner[Ptr(s, t)] == Claim(t, SlotDepth(owner, t))
  }

  predicate Fits(k: Kind, b: Block) { b.Zero? || if k == Reg then b.Data? else b.Recs? }

  /** What an indirect block reads as. */
  function IndCell(s: Fs, loc: Loc): Block {
    var p := Ptr(s, Ind(loc));
    if p != 0 && 0 <= p < |s.blocks| then s.blocks[p] else Zero
  }

  /** A slot's block holds what its file's type says. */
  ghost predicate Typed(s: Fs) {
    && (forall loc, i {:trigger Cell(s, loc, i)} :: Fits(FileAt(s, loc).kind, Cell(s, loc, i)))
    && (forall loc {:trigger IndCell(s, loc)} :: IndCell(s, loc).Zero? || IndCell(s, loc).Index?)
  }

  /** The file blocks a file may hold: one more than its size fills for a regular file. */
  function Cap(f: File): int { f.size / BY2BLK + if f.kind == Reg then 1 else 0 }

  /** Slots past f_size/BY2BLK, unnamed records, and the first entries of an indirect block hold nothing. */
  ghost predicate Tidy(s: Fs) {
    && (forall loc, i {:trigger PtrOf(s, loc, i)} :: i >= Cap(FileAt(s, loc)) ==> PtrOf(s, loc, i) == 0)
    && (forall loc {:trigger FileAt(s, loc)} ::
          var f := FileAt(s, loc);
          && (loc != Root && f.name == "" ==> f.size == 0 && f.direct == NoPtrs && f.indirect == 0)
          && (f.kind == Dir ==> f.size % BY2BLK == 0))
    && (forall b, i {:trigger Ptr(s, Entry(b, i))} :: i < NDIRECT ==> Ptr(s, Entry(b, i)) == 0)
  }

  ghost predicate Inv(s: Fs, owner: Owner) { Shape(s) && Owned(s, owner) && Typed(s) && Tidy(s) }

  // ---- the elementary changes ----

  function AllocBlk(s: Fs, p: int): Fs
    requires 0 <= p < |s.blocks| == |s.free|
  { s.(free := s.free[p := false], blocks := s.blocks[p := Zero]) }

  function FreeBlk(s: Fs, p: int): Fs
    requires 0 <= p < |s.blocks| == |s.free|
  { s.(free := s.free[p := true], blocks := s.blocks[p := Zero]) }

  function PutBlk(s: Fs, p: int, b: Block): Fs
    requires 0 <= p < |s.blocks|
  { s.(blocks := s.blocks[p := b]) }

  /** The records of a block, and its entries, when it is read as one. */
  function AsRecs(b: Block): seq<File> { if b.Recs? then b.recs else NoFiles }
  function AsEnts(b: Block): seq<int> { if b.Index? then b.ents else NoEnts }

  predicate CanPut(s: Fs, loc: Loc) {
    || loc == Root
    || (loc.At? && InUse(s, loc.blk) && 0 <= loc.j < |AsRecs(s.blocks[loc.blk])|
        && (s.blocks[loc.blk].Recs? || s.blocks[loc.blk].Zero?))
  }

  function PutFile(s: Fs, loc: Loc, f: File): Fs
    requires CanPut(s, loc)
  {
    if loc == Root then s.(root := f)
    else PutBlk(s, loc.blk, Recs(AsRecs(s.blocks[loc.blk])[loc.j := f]))
  }

  predicate CanPutEnt(s: Fs, b: int, i: int) {
    InUse(s, b) && 0 <= i < |AsEnts(s.blocks[b])| && (s.blocks[b].Index? || s.blocks[b].Zero?)
  }

  function PutEnt(s: Fs, b: int, i: int, p: int): Fs
    requires CanPutEnt(s, b, i)
  {
    PutBlk(s, b, Index(AsEnts(s.blocks[b])[i := p]))
  }

  /** A record as stored: every other record and every entry stays. */
  lemma PutFileAt(s: Fs, loc: Loc, f: File)
    requires CanPut(s, loc)
    ensures forall x {:trigger FileAt(PutFile(s, loc, f), x)} ::
              FileAt(PutFile(s, loc, f), x) == if x == loc then f else FileAt(s, x)
    ensures forall b, i {:trigger Ptr(PutFile(s, loc, f), Entry(b, i))} ::
              Ptr(PutFile(s, loc, f), Entry(b, i)) == Ptr(s, Entry(b, i))
  {
  }

  lemma PutEntAt(s: Fs, b: int, i: int, p: int)
    requires CanPutEnt(s, b, i)
    ensures forall x {:trigger FileAt(PutEnt(s, b, i, p), x)} :: FileAt(PutEnt(s, b, i, p), x) == FileAt(s, x)
    ensures forall t {:trigger Ptr(PutEnt(s, b, i, p), t)} ::
              Ptr(PutEnt(s, b, i, p), t) == if t == Entry(b, i) then p else Ptr(s, t)
  {
  }

  /** A slot that can be written: in a live record, or in a block that reads as entries. */
  predicate CanSet(s: Fs, t: Slot) {
    match t
    case Direct(loc, i) => Live(s, loc) && CanPut(s, loc) && 0 <= i < |FileAt(s, loc).direct|
    case Ind(loc) => Live(s, loc) && CanPut(s, loc)
    case Entry(b, i) => CanPutEnt(s, b, i)
  }

  /** *slot = p, with the slot in a record or in an indirect block. */
  function SetPtr(s: Fs, t: Slot, p: int): Fs
    requires CanSet(s, t)
  {
    match t
    case Direct(loc, i) => PutFile(s, loc, FileAt(s, loc).(direct := FileAt(s, loc).direct[i := p]))
    case Ind(loc) => PutFile(s, loc, FileAt(s, loc).(indirect := p))
    case Entry(b, i) => PutEnt(s, b, i, p)
  }

  predicate SameHead(f: File, g: File) { f.name == g.name && f.size == g.size && f.kind == g.kind && f.dir == g.dir }

  ghost predicate SameHeads(s: Fs, s': Fs) {
    forall x {:trigger FileAt(s', x)} :: SameHead(FileAt(s, x), FileAt(s', x))
  }

  ghost predicate SamePtrs(s: Fs, s': Fs) {
    forall t {:trigger Ptr(s', t)} :: Ptr(s', t) == Ptr(s, t)
  }

  /** Some slot holds the block. */
  ghost predicate Held(s: Fs, b: int) { exists t :: Ptr(s, t) == b }

  /** No block has come to be in use without a slot that holds it, but for `p`. */
  ghost predicate NoLeak(s: Fs, s': Fs, p: int) {
    forall b {:trigger InUse(s', b)} :: InUse(s', b) && b != p && !Held(s', b) ==> InUse(s, b) && !Held(s, b)
  }

  lemma LeakThen(s: Fs, s1: Fs, s2: Fs, p: int)
    requires (NoLeak(s, s1, p) && NoLeak(s1, s2, 0)) || (NoLeak(s, s1, 0) && NoLeak(s1, s2, p))
    ensures NoLeak(s, s2, p)
  {
    hide Held;
    forall b | InUse(s2, b) && b != p && !Held(s2, b) ensures InUse(s, b) && !Held(s, b) {
      assert InUse(s1, b) && !Held(s1, b);
    }
  }

  /** The same slots: only `p` can be a block taken. */
  lemma LeakSame(s: Fs, s': Fs, p: int)
    requires SamePtrs(s, s') && forall b {:trigger InUse(s', b)} :: InUse(s', b) && b != p ==> InUse(s, b)
    ensures NoLeak(s, s', p)
  {
    hide Ptr, InUse;
    forall b | Held(s, b) ensures Held(s', b) {
      var t :| Ptr(s, t) == b;
      assert Ptr(s', t) == b;
    }
  }

  /** `p` stored in an empty slot. */
  lemma LeakFill(s: Fs, s1: Fs, t: Slot, p: int)
    requires NoLeak(s, s1, p) && CanSet(s1, t) && Ptr(s1, t) == 0
    ensures NoLeak(s, SetPtr(s1, t, p), 0)
  {
    var s' := SetPtr(s1, t, p);
    SetPtrAt(s1, t, p);
    hide Ptr, SetPtr;
    assert Ptr(s', t) == p;
    forall b | b != 0 && Held(s1, b) ensures Held(s', b) {
      var u :| Ptr(s1, u) == b;
      assert Ptr(s', u) == b;
    }
    forall b | InUse(s', b) ensures InUse(s1, b) {}
  }

  /** Writing one slot leaves every other slot and every name, size and type alone. */
  lemma SetPtrAt(s: Fs, t: Slot, p: int)
    requires CanSet(s, t)
    ensures SameHeads(s, SetPtr(s, t, p))
    ensures forall x {:trigger FileAt(SetPtr(s, t, p), x)} ::
              (t.Entry? || x != t.loc) ==> FileAt(SetPtr(s, t, p), x) == FileAt(s, x)
    ensures forall u {:trigger Ptr(SetPtr(s, t, p), u)} :: Ptr(SetPtr(s, t, p), u) == if u == t then p else Ptr(s, u)
    ensures SetPtr(s, t, p).free == s.free && |SetPtr(s, t, p).blocks| == |s.blocks|
  {
    match t
    case Entry(b, i) => PutEntAt(s, b, i, p);
    case Direct(loc, i) => PutFileAt(s, loc, FileAt(s, loc).(direct := FileAt(s, loc).direct[i := p]));
    case Ind(loc) => PutFileAt(s, loc, FileAt(s, loc).(indirect := p));
  }

  /** Taking a free block changes no record and no slot. */
  lemma AllocAt(s: Fs, p: int)
    requires Shape(s) && 0 <= p < |s.blocks| && s.free[p]
    ensures SamePtrs(s, AllocBlk(s, p))
    ensures (forall x {:trigger FileAt(AllocBlk(s, p), x)} :: FileAt(AllocBlk(s, p), x) == FileAt(s, x))
  {
  }
}
