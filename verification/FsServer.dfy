/**
  The file server's disk, block cache and bitmap (fs/fs.c), and the operations on single blocks and slots.
 */
module FsServer {
  import opened FsModel
  import opened FsOps

  const E_INVAL := 3
  const E_NO_DISK := 8
  const E_NOT_FOUND := 10
  const E_FILE_EXISTS := 12

  ghost predicate NoFree(s: Fs) { forall b {:trigger s.free[b]} :: 0 <= b < |s.free| ==> !s.free[b] }

  /** The number of free blocks. */
  function FreeCount(free: seq<bool>): (n: nat)
  {
    if free == [] then 0 else (if free[|free| - 1] then 1 else 0) + FreeCount(free[..|free| - 1])
  }

  lemma {:induction false} TakeFree(free: seq<bool>, b: int)
    requires 0 <= b < |free| && free[b]
    ensures FreeCount(free[b := false]) == FreeCount(free) - 1
  {
    var n := |free| - 1;
    if b < n {
      TakeFree(free[..n], b);
      assert free[b := false][..n] == free[..n][b := false];
    } else {
      assert free[b := false][..n] == free[..n];
    }
  }

  lemma {:induction false} NoneFree(free: seq<bool>)
    requires forall b :: 0 <= b < |free| ==> !free[b]
    ensures FreeCount(free) == 0
  {
    if free != [] { NoneFree(free[..|free| - 1]); }
  }

  class Server {
    var disk: seq<Block>
    var cache: map<int, Block>
    var free: seq<bool>
    var root: File

    // What each block reads as, in the cache or on the disk, and which slot holds it.
    ghost var blocks: seq<Block>
    ghost var owner: Owner

    ghost function V(): Fs
      reads this
    { Fs(blocks, free, root) }

    /** Free blocks in the cache are all zero. */
    ghost predicate CacheOk()
      reads this
    {
      && |disk| == |blocks| == |free|
      && (forall b {:trigger blocks[b]} :: 0 <= b < |blocks| ==> blocks[b] == if b in cache then cache[b] else disk[b])
      && (forall b {:trigger cache[b]} :: b in cache ==> 0 <= b < |blocks| && (free[b] ==> cache[b] == Zero))
    }

    ghost predicate Valid()
      reads this
    { CacheOk() && Inv(V(), owner) }

    /** fs_init on a good image: the super block and the bitmap as they are on the disk, nothing else cached. */
    constructor (disk: seq<Block>, free: seq<bool>, root: File, ghost owner: Owner)
      requires Inv(Fs(disk, free, root), owner)
      ensures Valid() && V() == Fs(disk, free, root) && cache == map[] && this.owner == owner
    {
      this.disk, this.free, this.root, this.cache := disk, free, root, map[];
      this.blocks, this.owner := disk, owner;
    }

    // ---- blocks ----

    /** Neither of the panics is reached: the block exists and is in use. */
    method ReadBlock(b: int)
      requires CacheOk() && 0 <= b < |disk| && !free[b]
      modifies this`cache
      ensures CacheOk() && cache.Keys == old(cache.Keys) + {b}
    {
      if b !in cache {
        cache := cache[b := disk[b]];
      }
    }

    method MapBlock(b: int)
      requires CacheOk() && 0 <= b < |disk|
      modifies this`cache, this`blocks
      ensures CacheOk() && cache.Keys == old(cache.Keys) + {b}
      ensures blocks == if b in old(cache) then old(blocks) else old(blocks)[b := Zero]
    {
      if b !in cache {
        cache := cache[b := Zero];
        blocks := blocks[b := Zero];
      }
    }

    method WriteBlock(b: int)
      requires CacheOk() && b in cache
      modifies this`disk
      ensures CacheOk() && disk == old(disk)[b := cache[b]]
    {
      disk := disk[b := cache[b]];
    }

    /** Marks a block free and zeroes it, in the cache and on the disk. */
    method FreeBlock(b: int)
      requires CacheOk() && b >= 0
      modifies this`cache, this`blocks, this`disk, this`free
      ensures CacheOk() && old(cache.Keys) <= cache.Keys
      ensures V() == if b == 0 || b >= |old(blocks)| then old(V()) else FreeBlk(old(V()), b)
      ensures if b == 0 || b >= |old(blocks)| then cache == old(cache) && disk == old(disk)
              else cache == old(cache)[b := Zero] && disk == old(disk)[b := Zero]
    {
      if b == 0 || b >= |disk| { return; }
      free := free[b := true];
      cache := cache[b := Zero];
      blocks := blocks[b := Zero];
      WriteBlock(b);
    }

    /** The lowest free block, or none when the bitmap is full. */
    method AllocBlockNum() returns (r: int)
      requires CacheOk() && Shape(V())
      modifies this`free
      ensures CacheOk()
      ensures r >= 0 ==> r < |blocks| && old(free[r]) && free == old(free)[r := false] && forall b :: 0 <= b < r ==>
        !free[b]
      ensures r < 0 ==> r == -E_NO_DISK && free == old(free) && NoFree(V())
    {
      var b := 3;
      while b < |disk|
        invariant 3 <= b && free == old(free)
        invariant forall k :: 0 <= k < b && k < |free| ==> !free[k]
      {
        if free[b] {
          free := free[b := false];
          return b;
        }
        b := b + 1;
      }
      return -E_NO_DISK;
    }

    /** The block handed out is all zero and in no slot. */
    method AllocBlock() returns (r: int)
      requires Valid()
      modifies this`cache, this`blocks, this`free
      ensures Valid() && old(cache.Keys) <= cache.Keys
      ensures r >= 0 ==>
        0 <= r < |old(blocks)| && old(free[r]) && V() == AllocBlk(old(V()), r) && r in cache && Spare(V(), r)
      ensures r < 0 ==> r == -E_NO_DISK && V() == old(V()) && NoFree(V())
      ensures FreeCount(free) == FreeCount(old(free)) - if r >= 0 then 1 else 0
    {
      r := AllocBlockNum();
      if r < 0 { return; }
      TakeFree(old(free), r);
      MapBlock(r);
      AllocInv(old(V()), owner, r);
      assert V() == AllocBlk(old(V()), r);
    }

    // ---- records and slots, through the cache ----

    predicate Cached(loc: Loc)
      reads this
    { loc == Root || (loc.At? && loc.blk in cache && 0 <= loc.j < |AsRecs(cache[loc.blk])|) }

    function Get(loc: Loc): (f: File)
      requires Cached(loc)
      reads this
    { if loc == Root then root else AsRecs(cache[loc.blk])[loc.j] }

    ghost predicate Handle(loc: Loc)
      reads this
    { Live(V(), loc) && (loc.At? ==> loc.blk in cache) }

    lemma Handled(loc: Loc)
      requires Valid() && Handle(loc)
      ensures Cached(loc) && Get(loc) == FileAt(V(), loc) && CanPut(V(), loc) && FileOk(Get(loc))
    {
      LiveBlock(V(), owner, loc);
      if loc.At? { assert BlockOk(blocks[loc.blk]); }
    }

    method Put(loc: Loc, f: File)
      requires CacheOk() && CanPut(V(), loc) && (loc.At? ==> loc.blk in cache)
      modifies this`cache, this`blocks, this`root
      ensures CacheOk() && cache.Keys == old(cache.Keys) && V() == PutFile(old(V()), loc, f)
    {
      if loc == Root {
        root := f;
      } else {
        var b := Recs(AsRecs(cache[loc.blk])[loc.j := f]);
        cache := cache[loc.blk := b];
        blocks := blocks[loc.blk := b];
      }
    }

    method PutEntry(b: int, i: int, p: int)
      requires CacheOk() && CanPutEnt(V(), b, i) && b in cache
      modifies this`cache, this`blocks
      ensures CacheOk() && cache.Keys == old(cache.Keys) && V() == PutEnt(old(V()), b, i, p)
    {
      var e := Index(AsEnts(cache[b])[i := p]);
      cache := cache[b := e];
      blocks := blocks[b := e];
    }

    /** memcpy of a whole cached block over another. */
    method CopyBlock(to: int, from: int)
      requires CacheOk() && to in cache && from in cache && !free[to]
      modifies this`cache, this`blocks
      ensures CacheOk() && cache.Keys == old(cache.Keys) && V() == PutBlk(old(V()), to, old(blocks[from]))
    {
      blocks := blocks[to := cache[from]];
      cache := cache[to := cache[from]];
    }

    /** *t = p. */
    method SetSlot(t: Slot, p: int)
      requires CacheOk() && CanSet(V(), t)
      requires (if t.Entry? then t.blk in cache else t.loc.At? ==> t.loc.blk in cache)
      modifies this`cache, this`blocks, this`root
      ensures CacheOk() && cache.Keys == old(cache.Keys) && V() == SetPtr(old(V()), t, p)
    {
      match t
      case Direct(loc, i) =>
        var f := Get(loc);
        Put(loc, f.(direct := f.direct[i := p]));
      case Ind(loc) =>
        Put(loc, Get(loc).(indirect := p));
      case Entry(b, i) => PutEntry(b, i, p);
    }

    /** *t. */
    method GetSlot(t: Slot) returns (p: int)
      requires CacheOk() && CanSet(V(), t)
      requires (if t.Entry? then t.blk in cache else t.loc.At? ==> t.loc.blk in cache)
      ensures p == Ptr(V(), t)
    {
      match t
      case Direct(loc, i) => return Get(loc).direct[i];
      case Ind(loc) => return Get(loc).indirect;
      case Entry(b, i) =>
        p := AsEnts(cache[b])[i];
    }
  }
}
