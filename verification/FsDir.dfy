/**
  Directories: finding a name, finding or making an empty record, creating and removing files (fs/fs.c).
 */
module FsDir {
  import opened FsModel
  import opened FsOps
  import opened FsServer
  import opened FsFile
  import opened FsTruncate
  import opened FsTree

  /** No record before the `q`-th has the name. */
  ghost predicate NoneBefore(s: Fs, dir: Loc, q: int, name: string) {
    forall p {:trigger KidName(s, dir, p)} :: 0 <= p < q ==> KidName(s, dir, p) != name
  }

  lemma NoneBeforeFilled(s: Fs, s': Fs, owner: Owner, dir: Loc, i: int, name: string)
    requires Inv(s, owner) && Filled(s, s', dir, i) && NoneBefore(s, dir, FILE2BLK * i, name) && Used(s, dir)
    requires forall k {:trigger PtrOf(s, dir, k)} :: 0 <= k < i ==> PtrOf(s, dir, k) != 0
    ensures NoneBefore(s', dir, FILE2BLK * i, name)
  {
    forall p | 0 <= p < FILE2BLK * i ensures KidName(s', dir, p) != name {
      assert KidName(s, dir, p) != name;
      assert PtrOf(s, dir, p / FILE2BLK) != 0;
      assert PtrOf(s', dir, p / FILE2BLK) == PtrOf(s, dir, p / FILE2BLK);
      assert SameHead(FileAt(s, KidLoc(s, dir, p)), FileAt(s', KidLoc(s, dir, p)));
      hide Inv, PtrOf, FileAt;
    }
  }

  /** Record `j` of a directory's cached block. */
  lemma KidCached(m: Server, dir: Loc, i: int, j: int)
    requires m.Valid() && FileAt(m.V(), dir).kind == Dir && PtrOf(m.V(), dir, i) != 0 && i >= 0 && 0 <= j < FILE2BLK
    requires PtrOf(m.V(), dir, i) in m.cache
    ensures var b := PtrOf(m.V(), dir, i);
            && InUse(m.V(), b) && m.Cached(At(b, j)) && m.Get(At(b, j)) == FileAt(m.V(), At(b, j))
            && KidLoc(m.V(), dir, i * FILE2BLK + j) == At(b, j) && CanPut(m.V(), At(b, j))
            && (FileAt(m.V(), At(b, j)).name != "" ==> m.Handle(At(b, j)))
  {
    var b := PtrOf(m.V(), dir, i);
    assert Fits(Dir, Cell(m.V(), dir, i));
    assert InUse(m.V(), b) && BlockOk(m.blocks[b]);
  }

  /** The scan of the records in one block, for a name or (name "") for an empty one. */
  method FindName(m: Server, dir: Loc, i: int, bno: int, name: string) returns (j: int)
    requires m.Valid() && FileAt(m.V(), dir).kind == Dir && PtrOf(m.V(), dir, i) == bno != 0 && i >= 0
    requires bno in m.cache && NoneBefore(m.V(), dir, FILE2BLK * i, name)
    ensures 0 <= j <= FILE2BLK && NoneBefore(m.V(), dir, FILE2BLK * i + j, name)
    ensures j < FILE2BLK ==>
      KidLoc(m.V(), dir, FILE2BLK * i + j) == At(bno, j) && FileAt(m.V(), At(bno, j)).name == name
    ensures j < FILE2BLK ==> CanPut(m.V(), At(bno, j)) && (name != "" ==> m.Handle(At(bno, j)))
  {
    hide Inv, PtrOf, FileAt, NoneBefore, InUse, CanPut;
    j := 0;
    while j < FILE2BLK
      invariant 0 <= j <= FILE2BLK && NoneBefore(m.V(), dir, FILE2BLK * i + j, name)
    {
      KidCached(m, dir, i, j);
      if m.Get(At(bno, j)).name == name { return; }
      NoneMore(m.V(), dir, FILE2BLK * i + j, name);
      j := j + 1;
    }
  }

  /** A directory being scanned: `i` blocks are there, without the name; since s0 only holes were filled. */
  ghost predicate Scanned(s0: Fs, s: Fs, dir: Loc, i: int, name: string) {
    && Grow(s0, s, Null) && SameHead(FileAt(s0, dir), FileAt(s, dir)) && NoneBefore(s, dir, FILE2BLK * i, name)
    && ((forall k {:trigger PtrOf(s0, dir, k)} :: 0 <= k < i ==> PtrOf(s0, dir, k) != 0) ==> s == s0)
    && forall k {:trigger PtrOf(s, dir, k)} :: 0 <= k < i ==> PtrOf(s, dir, k) != 0
  }

  ghost predicate DirHandle(m: Server, dir: Loc)
    reads m
  { m.Valid() && m.Handle(dir) && Named(m.V(), dir) && FileAt(m.V(), dir).kind == Dir }

  lemma GrowPtr(s: Fs, s': Fs, dir: Loc, i: int)
    requires Grow(s, s', Null) && Used(s, dir)
    ensures PtrOf(s, dir, i) != 0 ==> PtrOf(s', dir, i) == PtrOf(s, dir, i)
  {
    GrowCellAt(s, s', dir, i);
  }

  /** The i-th block of a scan fetched. */
  ghost predicate Fetched(s0: Fs, s: Fs, dir: Loc, i: int, name: string) {
    && Grow(s0, s, Null) && SameHead(FileAt(s0, dir), FileAt(s, dir)) && NoneBefore(s, dir, FILE2BLK * i, name)
    && ((forall k {:trigger PtrOf(s0, dir, k)} :: 0 <= k <= i ==> PtrOf(s0, dir, k) != 0) ==> s == s0)
    && forall k {:trigger PtrOf(s, dir, k)} :: 0 <= k < i ==> PtrOf(s, dir, k) != 0
  }

  lemma Fetch(s0: Fs, s1: Fs, s2: Fs, o1: Owner, dir: Loc, i: int, name: string)
    requires Scanned(s0, s1, dir, i, name) && i >= 0 && Inv(s1, o1) && Filled(s1, s2, dir, i) && Live(s1, dir)
    requires Used(s0, dir)
    requires PtrOf(s1, dir, i) != 0 ==> s2 == s1
    ensures Fetched(s0, s2, dir, i, name)
    ensures PtrOf(s2, dir, i) == 0 ==> PtrOf(s0, dir, i) == 0
  {
    FilledGrow(s1, s2, dir, i, Null);
    NoneBeforeFilled(s1, s2, o1, dir, i, name);
    GrowThen(s0, s1, s2, o1, Null, Null);
    GrowPtr(s0, s2, dir, i);
    forall k | 0 <= k < i ensures PtrOf(s2, dir, k) != 0 { assert PtrOf(s1, dir, k) != 0; }
    assert SameHead(FileAt(s1, dir), FileAt(s2, dir));
    GrowPtr(s0, s1, dir, i);
    hide Inv, Grow, PtrOf, FileAt, NoneBefore, Filled;
    if forall k {:trigger PtrOf(s0, dir, k)} :: 0 <= k <= i ==> PtrOf(s0, dir, k) != 0 {
      assert PtrOf(s0, dir, i) != 0;
      assert s1 == s0;
    }
  }

  /** Block `i` of the directory, fetched. */
  method DirBlock(m: Server, dir: Loc, i: int, name: string, ghost s0: Fs) returns (r: int, bno: int)
    requires DirHandle(m, dir) && 0 <= i < FileAt(m.V(), dir).size / BY2BLK && Scanned(s0, m.V(), dir, i, name)
    requires Used(s0, dir)
    modifies m
    ensures DirHandle(m, dir) && old(m.cache.Keys) <= m.cache.Keys && Fetched(s0, m.V(), dir, i, name)
    ensures r != 0 ==> (r == -E_INVAL && i >= NINDIRECT) || (r == -E_NO_DISK && NoFree(m.V()))
    ensures r != 0 ==> PtrOf(s0, dir, i) == 0
    ensures r == 0 ==> bno == PtrOf(m.V(), dir, i) != 0 && bno in m.cache
    ensures FreeCount(m.free) >= FreeCount(old(m.free)) - 2
  {
    ghost var s1, o1 := m.V(), m.owner;
    r, bno := FileGetBlock(m, dir, i);
    hide Inv, PtrOf, FileAt, Live, Grow, InUse, NoneBefore, Filled, Scanned, Fetched, NoFree, FreeCount;
    FilledHead(s1, m.V(), dir, i);
    Fetch(s0, s1, m.V(), o1, dir, i, name);
  }

  /** One block of the scan: the name found in it, or not there, or no block to be had. */
  method ScanStep(m: Server, dir: Loc, i: int, name: string, ghost s0: Fs) returns (r: int, bno: int, j: int)
    requires DirHandle(m, dir) && 0 <= i < FileAt(m.V(), dir).size / BY2BLK && Scanned(s0, m.V(), dir, i, name)
    requires Used(s0, dir)
    modifies m
    ensures DirHandle(m, dir) && old(m.cache.Keys) <= m.cache.Keys && Fetched(s0, m.V(), dir, i, name)
    ensures r != 0 ==> (r == -E_INVAL && i >= NINDIRECT) || (r == -E_NO_DISK && NoFree(m.V()))
    ensures r != 0 ==> PtrOf(s0, dir, i) == 0
    ensures FreeCount(m.free) >= FreeCount(old(m.free)) - 2
    ensures r == 0 && j == FILE2BLK ==> Scanned(s0, m.V(), dir, i + 1, name)
    ensures r == 0 && j != FILE2BLK ==> Found(m, s0, dir, i, bno, j, name)
  {
    hide Inv, PtrOf, FileAt, Live, CanPut, Grow, InUse, NoneBefore, Filled, Scanned, NoFree, FreeCount, Used;
    j := 0;
    FetchedRead(s0, m.V(), dir, i, name);
    r, bno := DirBlock(m, dir, i, name, s0);
    if r == 0 {
      j := FindName(m, dir, i, bno, name);
      if j == FILE2BLK { ScanMore(s0, m.V(), dir, i, name); }
    }
  }

  lemma FetchedRead(s0: Fs, s: Fs, dir: Loc, i: int, name: string)
    requires Scanned(s0, s, dir, i, name)
    ensures SameHead(FileAt(s0, dir), FileAt(s, dir))
  {}

  lemma ScanMore(s0: Fs, s: Fs, dir: Loc, i: int, name: string)
    requires Fetched(s0, s, dir, i, name) && NoneBefore(s, dir, FILE2BLK * i + FILE2BLK, name) && PtrOf(s, dir, i) != 0
    ensures Scanned(s0, s, dir, i + 1, name)
  {
    hide Grow, PtrOf, FileAt;
  }

  /** The name is in record `j` of block `i`, and nowhere before. */
  ghost predicate Found(m: Server, s0: Fs, dir: Loc, i: int, bno: int, j: int, name: string)
    reads m
  {
    var s := m.V();
    && 0 <= i < FileAt(s, dir).size / BY2BLK && 0 <= j < FILE2BLK && bno in m.cache && bno == PtrOf(s, dir, i) != 0
    && KidLoc(s, dir, FILE2BLK * i + j) == At(bno, j) && CanPut(s, At(bno, j))
    && FileAt(s, At(bno, j)).name == name && NoneBefore(s, dir, FILE2BLK * i + j, name)
    && (name != "" ==> m.Handle(At(bno, j)))
    && ((forall k {:trigger PtrOf(s0, dir, k)} :: 0 <= k <= i ==> PtrOf(s0, dir, k) != 0) ==> s == s0)
  }

  const NONE := 1

  /** How a scan ends: found, nowhere, or stopped at block `i`, a hole. */
  ghost predicate ScanEnds(m: Server, s0: Fs, dir: Loc, r: int, i: int, bno: int, j: int, name: string)
    reads m
  {
    var s := m.V();
    && Grow(s0, s, Null) && SameHead(FileAt(s0, dir), FileAt(s, dir))
    && (r == 0 ==> Found(m, s0, dir, i, bno, j, name))
    && (r == NONE ==> i == FileAt(s, dir).size / BY2BLK && Scanned(s0, s, dir, i, name))
    && (r == 0 || r == NONE || (r == -E_INVAL && i >= NINDIRECT) || (r == -E_NO_DISK && NoFree(s)))
    && (r < 0 ==>
         0 <= i < FileAt(s0, dir).size / BY2BLK && PtrOf(s0, dir, i) == 0 && NoneBefore(s, dir, FILE2BLK * i, name))
    && FreeCount(s.free) >= FreeCount(s0.free) - 2 * (FileAt(s0, dir).size / BY2BLK)
  }

  /** The scan itself: r == 0 when found, NONE when it is nowhere. */
  method Scan(m: Server, dir: Loc, name: string) returns (r: int, i: int, bno: int, j: int)
    requires DirHandle(m, dir)
    modifies m
    ensures DirHandle(m, dir) && old(m.cache.Keys) <= m.cache.Keys
    ensures ScanEnds(m, old(m.V()), dir, r, i, bno, j, name)
  {
    ghost var s0 := m.V();
    m.Handled(dir);
    var nblock := m.Get(dir).size / BY2BLK;
    ScanStart(m, dir, name);
    i, bno, j := 0, 0, 0;
    hide *;
    while i < nblock
      invariant 0 <= i <= nblock && nblock == FileAt(s0, dir).size / BY2BLK && Used(s0, dir)
      invariant DirHandle(m, dir) && Scanned(s0, m.V(), dir, i, name) && old(m.cache.Keys) <= m.cache.Keys
      invariant FreeCount(m.free) >= FreeCount(s0.free) - 2 * i
    {
      ScannedHead(s0, m.V(), dir, i, name);
      r, bno, j := ScanStep(m, dir, i, name, s0);
      if r != 0 || j != FILE2BLK {
        ScanStopped(m, s0, dir, r, i, bno, j, name);
        return;
      }
      i := i + 1;
    }
    ScanOver(m, s0, dir, i, bno, j, name);
    return NONE, i, bno, j;
  }

  lemma ScanStart(m: Server, dir: Loc, name: string)
    requires DirHandle(m, dir)
    ensures Scanned(m.V(), m.V(), dir, 0, name) && FileAt(m.V(), dir).size >= 0 && m.Get(dir) == FileAt(m.V(), dir)
    ensures Used(m.V(), dir)
  {
    m.Handled(dir);
    Unfilled(m.V(), dir, 0);
    FilledGrow(m.V(), m.V(), dir, 0, Null);
  }

  lemma ScannedHead(s0: Fs, s: Fs, dir: Loc, i: int, name: string)
    requires Scanned(s0, s, dir, i, name)
    ensures FileAt(s, dir).size == FileAt(s0, dir).size
  {}

  lemma ScanStopped(m: Server, s0: Fs, dir: Loc, r: int, i: int, bno: int, j: int, name: string)
    requires 0 <= i < FileAt(s0, dir).size / BY2BLK && Fetched(s0, m.V(), dir, i, name)
    requires r != 0 ==>
      ((r == -E_INVAL && i >= NINDIRECT) || (r == -E_NO_DISK && NoFree(m.V()))) && PtrOf(s0, dir, i) == 0
    requires r == 0 ==> Found(m, s0, dir, i, bno, j, name)
    requires FreeCount(m.free) >= FreeCount(s0.free) - 2 * i - 2
    ensures ScanEnds(m, s0, dir, r, i, bno, j, name)
  {
    hide Found, PtrOf, FileAt, Grow, NoneBefore, NoFree, FreeCount;
  }

  lemma ScanOver(m: Server, s0: Fs, dir: Loc, i: int, bno: int, j: int, name: string)
    requires i == FileAt(s0, dir).size / BY2BLK && Scanned(s0, m.V(), dir, i, name)
    requires FreeCount(m.free) >= FreeCount(s0.free) - 2 * i
    ensures ScanEnds(m, s0, dir, NONE, i, bno, j, name)
  {
    hide PtrOf, FileAt, Grow, NoneBefore, NoFree, FreeCount;
  }

  lemma FetchedGrow(s0: Fs, s: Fs, dir: Loc, i: int, name: string)
    requires Fetched(s0, s, dir, i, name)
    ensures Grow(s0, s, Null) && SameHead(FileAt(s0, dir), FileAt(s, dir)) && NoneBefore(s, dir, FILE2BLK * i, name)
  {}

  lemma DirSizeOk(m: Server, dir: Loc)
    requires DirHandle(m, dir)
    ensures FileAt(m.V(), dir).size >= 0 && FileAt(m.V(), dir).size % BY2BLK == 0
    ensures NKids(m.V(), dir) == FileAt(m.V(), dir).size / BY2BLK * FILE2BLK
  {
    m.Handled(dir);
  }

  // ---- what a scan can meet ----

  /** Some record of the directory has the name; a hole reads as records without one. */
  ghost predicate Present(s: Fs, dir: Loc, name: string) {
    exists q :: 0 <= q < NKids(s, dir) && KidName(s, dir, q) == name
  }

  /** The directory has no hole. */
  ghost predicate Solid(s: Fs, dir: Loc) {
    forall k {:trigger PtrOf(s, dir, k)} :: 0 <= k < FileAt(s, dir).size / BY2BLK ==> PtrOf(s, dir, k) != 0
  }

  /** The blocks a scan may take: for each hole a block, and an indirect block. */
  ghost function ScanCost(s: Fs, dir: Loc): nat {
    if Solid(s, dir) || FileAt(s, dir).size < 0 then 0 else 2 * (FileAt(s, dir).size / BY2BLK)
  }

  /** A scan of the directory gets through: it is not larger than a file can be, and its holes can be filled. */
  ghost predicate CanScan(s: Fs, dir: Loc) {
    FileAt(s, dir).size / BY2BLK <= NINDIRECT && (Solid(s, dir) || FreeCount(s.free) > ScanCost(s, dir))
  }

  lemma FullCount(s: Fs)
    requires NoFree(s)
    ensures FreeCount(s.free) == 0
  {
    NoneFree(s.free);
  }

  /** A record has a given name before a growth of the disk if and only if after it, and no new one is named. */
  lemma SameKidName(s0: Fs, s: Fs, o: Owner, dir: Loc, q: int)
    requires Grow(s0, s, Null) && Used(s0, dir) && Owned(s0, o) && q >= 0 && PtrOf(s, dir, q / FILE2BLK) != 0
    ensures KidName(s0, dir, q) == KidName(s, dir, q)
  {
    GrowCellAt(s0, s, dir, q / FILE2BLK);
    if PtrOf(s0, dir, q / FILE2BLK) == 0 {
      assert FileAt(s, KidLoc(s, dir, q)).name == "";
      assert !InUse(s0, 0);
    } else {
      assert Used(s0, KidLoc(s0, dir, q));
      assert SameFace(FileAt(s0, KidLoc(s0, dir, q)), FileAt(s, KidLoc(s0, dir, q)));
    }
  }

  lemma NotPresent(s0: Fs, s: Fs, o: Owner, dir: Loc, name: string)
    requires Grow(s0, s, Null) && Used(s0, dir) && Owned(s0, o) && FileAt(s0, dir).size == FileAt(s, dir).size
    requires FileAt(s, dir).size % BY2BLK == 0 && Solid(s, dir) && NoneBefore(s, dir, NKids(s, dir), name)
    ensures !Present(s0, dir, name)
  {
    hide Grow, Owned, PtrOf, FileAt;
    forall q | 0 <= q < NKids(s0, dir) ensures KidName(s0, dir, q) != name {
      assert PtrOf(s, dir, q / FILE2BLK) != 0;
      SameKidName(s0, s, o, dir, q);
    }
  }

  lemma WasPresent(s0: Fs, s: Fs, o: Owner, dir: Loc, q: int, name: string)
    requires Grow(s0, s, Null) && Used(s0, dir) && Owned(s0, o) && FileAt(s0, dir).size == FileAt(s, dir).size
    requires 0 <= q < NKids(s, dir) && PtrOf(s, dir, q / FILE2BLK) != 0 && KidName(s, dir, q) == name
    ensures Present(s0, dir, name)
  {
    SameKidName(s0, s, o, dir, q);
  }

  /** What the outcome of a scan says about the directory as it was. */
  ghost predicate ScanSays(s0: Fs, s: Fs, dir: Loc, r: int, name: string) {
    && (r == 0 ==> Present(s0, dir, name))
    && (r == NONE ==> !Present(s0, dir, name) && Solid(s, dir))
    && (r == -E_INVAL ==> FileAt(s0, dir).size / BY2BLK > NINDIRECT)
    && (r == -E_NO_DISK ==> !Solid(s0, dir))
    && (Solid(s0, dir) ==> s == s0)
    && FreeCount(s.free) + ScanCost(s0, dir) >= FreeCount(s0.free)
    && (CanScan(s0, dir) ==> r == 0 || r == NONE)
  }

  lemma ScanTells(m: Server, s0: Fs, o: Owner, dir: Loc, r: int, i: int, bno: int, j: int, name: string)
    requires DirHandle(m, dir) && Inv(s0, o) && Used(s0, dir)
    requires ScanEnds(m, s0, dir, r, i, bno, j, name)
    ensures Grow(s0, m.V(), Null) && ScanSays(s0, m.V(), dir, r, name)
  {
    hide FreeCount, Grow;
    OwnedOf(s0, o);
    DirSizeOk(m, dir);
    if r == 0 {
      FoundPresent(m, s0, o, dir, i, bno, j, name);
    } else if r == NONE {
      ScannedAbsent(m, s0, o, dir, i, name);
    } else if r == -E_NO_DISK {
      FullCount(m.V());
    }
  }

  lemma FoundPresent(m: Server, s0: Fs, o: Owner, dir: Loc, i: int, bno: int, j: int, name: string)
    requires DirHandle(m, dir) && Owned(s0, o) && Used(s0, dir) && Found(m, s0, dir, i, bno, j, name)
    requires Grow(s0, m.V(), Null) && SameHead(FileAt(s0, dir), FileAt(m.V(), dir))
    ensures Present(s0, dir, name) && (Solid(s0, dir) ==> m.V() == s0)
  {
    hide Grow, Owned, PtrOf, FileAt, CanPut, NoneBefore, Inv;
    DirSizeOk(m, dir);
    assert (FILE2BLK * i + j) / FILE2BLK == i;
    WasPresent(s0, m.V(), o, dir, FILE2BLK * i + j, name);
  }

  lemma ScannedAbsent(m: Server, s0: Fs, o: Owner, dir: Loc, i: int, name: string)
    requires DirHandle(m, dir) && Owned(s0, o) && Used(s0, dir) && Scanned(s0, m.V(), dir, i, name)
    requires i == FileAt(m.V(), dir).size / BY2BLK
    ensures !Present(s0, dir, name) && Solid(m.V(), dir) && (Solid(s0, dir) ==> m.V() == s0)
  {
    hide Grow, Owned, PtrOf, FileAt, NoneBefore, Inv;
    DirSizeOk(m, dir);
    NotPresent(s0, m.V(), o, dir, name);
  }

  /** What dir_lookup finds: the first record with the name, or that there is none. */
  ghost predicate Looked(s0: Fs, s: Fs, dir: Loc, r: int, file: Loc, q: int, name: string) {
    && Grow(s0, s, Null) && SameHead(FileAt(s0, dir), FileAt(s, dir))
    && (r == 0 ==>
         && 0 <= q < NKids(s, dir) && file == KidLoc(s, dir, q)
         && FileAt(s, file).name == name && NoneBefore(s, dir, q, name))
    && (r == -E_NOT_FOUND ==> NoneBefore(s, dir, NKids(s, dir), name))
    && (r == 0 || r == -E_NOT_FOUND || r == -E_INVAL || (r == -E_NO_DISK && NoFree(s)))
    && ScanSays(s0, s, dir, if r == -E_NOT_FOUND then NONE else r, name)
  }

  /**
    dir_lookup: the first record with the name, or none in the whole directory. It fails otherwise only at a hole
    it cannot fill, or past the largest size.
   */
  method DirLookup(m: Server, dir: Loc, name: string) returns (r: int, file: Loc, ghost q: int)
    requires DirHandle(m, dir) && name != ""
    modifies m
    ensures DirHandle(m, dir) && old(m.cache.Keys) <= m.cache.Keys
    ensures Looked(old(m.V()), m.V(), dir, r, file, q, name) && (r == 0 ==> m.Handle(file))
  {
    ghost var s0, o := m.V(), m.owner;
    DirInv(m, dir);
    hide Inv, DirHandle, Used, Looked, ScanEnds;
    var x, i, bno, j := Scan(m, dir, name);
    r, file, q := if x == NONE then -E_NOT_FOUND else x, At(bno, j), FILE2BLK * i + j;
    LookupDone(m, s0, o, dir, x, i, bno, j, name, r, file, q);
  }

  lemma LookupDone(m: Server, s0: Fs, o: Owner, dir: Loc, x: int, i: int, bno: int, j: int, name: string, r: int,
                   file: Loc, q: int)
    requires DirHandle(m, dir) && Inv(s0, o) && Used(s0, dir) && name != ""
    requires ScanEnds(m, s0, dir, x, i, bno, j, name)
    requires r == (if x == NONE then -E_NOT_FOUND else x) && file == At(bno, j) && q == FILE2BLK * i + j
    ensures Looked(s0, m.V(), dir, r, file, q, name) && (r == 0 ==> m.Handle(file))
  {
    hide Inv, FileAt, PtrOf, Live, CanPut, Grow, NoneBefore, Found, Scanned, NKids, KidLoc, NoFree, ScanSays;
    hide FreeCount, DirHandle, Used;
    ScanTells(m, s0, o, dir, x, i, bno, j, name);
    if x == 0 {
      FoundKid(m, s0, dir, i, bno, j, name);
    } else if x == NONE {
      NotFound(m, s0, dir, i, name);
    }
  }

  lemma DirInv(m: Server, dir: Loc)
    requires DirHandle(m, dir)
    ensures Inv(m.V(), m.owner) && Used(m.V(), dir)
  {}

  lemma FoundKid(m: Server, s0: Fs, dir: Loc, i: int, bno: int, j: int, name: string)
    requires DirHandle(m, dir) && Found(m, s0, dir, i, bno, j, name) && name != ""
    ensures var q := FILE2BLK * i + j; var file := At(bno, j);
            && 0 <= q < NKids(m.V(), dir) && file == KidLoc(m.V(), dir, q) && m.Handle(file)
            && FileAt(m.V(), file).name == name && NoneBefore(m.V(), dir, q, name)
  {
    DirSizeOk(m, dir);
    hide Inv, FileAt, PtrOf, Live, CanPut, NoneBefore, NKids, KidLoc;
  }

  lemma NotFound(m: Server, s0: Fs, dir: Loc, i: int, name: string)
    requires DirHandle(m, dir) && Scanned(s0, m.V(), dir, i, name) && i == FileAt(m.V(), dir).size / BY2BLK
    ensures NoneBefore(m.V(), dir, NKids(m.V(), dir), name)
  {
    DirSizeOk(m, dir);
    hide Inv, FileAt, PtrOf, NoneBefore, NKids, Grow;
  }

  // ---- where the records of a directory are ----

  lemma BlockDepth(s: Fs, o: Owner, loc: Loc, k: int)
    requires Inv(s, o) && PtrOf(s, loc, k) != 0
    ensures BlkDepth(o, PtrOf(s, loc, k)) == LocDepth(o, loc) + 1
  {
    var t := SlotOf(s, loc, k);
    assert o[Ptr(s, t)] == Claim(t, SlotDepth(o, t));
    if k >= NDIRECT {
      assert Ptr(s, Ind(loc)) != 0 by { assert !InUse(s, 0); }
      assert o[Ptr(s, Ind(loc))] == Claim(Ind(loc), SlotDepth(o, Ind(loc)));
    }
  }

  /** A file is one level below its directory. */
  lemma KidDeeper(s: Fs, o: Owner, dir: Loc, q: int)
    requires Inv(s, o) && q >= 0 && FileAt(s, KidLoc(s, dir, q)).name != ""
    ensures PtrOf(s, dir, q / FILE2BLK) != 0 && LocDepth(o, KidLoc(s, dir, q)) == LocDepth(o, dir) + 1
    ensures KidLoc(s, dir, q) != dir && KidLoc(s, dir, q) != Root
  {
    assert PtrOf(s, dir, q / FILE2BLK) != 0 by { assert !InUse(s, 0); }
    BlockDepth(s, o, dir, q / FILE2BLK);
  }

  /** Two records of a directory are at different places. */
  lemma KidsApart(s: Fs, o: Owner, dir: Loc, p: int, q: int)
    requires Owned(s, o) && p >= 0 && q >= 0 && PtrOf(s, dir, p / FILE2BLK) != 0
    ensures KidLoc(s, dir, p) == KidLoc(s, dir, q) ==> p == q
  {
    if KidLoc(s, dir, p) == KidLoc(s, dir, q) {
      SameCell(s, o, dir, p / FILE2BLK, dir, q / FILE2BLK);
    }
  }

  // ---- an empty record ----

  /** What memset of the (already empty) first bytes of the name and `f_dir = dir` leave: the record's
      size, pointers and type are not cleared. */
  function Touch(s: Fs, file: Loc, dir: Loc): Fs
    requires CanPut(s, file)
  { PutFile(s, file, FileAt(s, file).(dir := dir)) }

  /** The q-th record of a directory, without a name, in a block that is there. */
  ghost predicate EmptyKid(s: Fs, owner: Owner, dir: Loc, q: int) {
    && Inv(s, owner) && FileAt(s, dir).kind == Dir && q >= 0 && PtrOf(s, dir, q / FILE2BLK) != 0
    && FileAt(s, KidLoc(s, dir, q)).name == "" && CanPut(s, KidLoc(s, dir, q))
  }

  lemma TouchReq(s: Fs, owner: Owner, dir: Loc, q: int)
    requires EmptyKid(s, owner, dir, q)
    ensures var file := KidLoc(s, dir, q); HeadReq(s, owner, file, FileAt(s, file).(dir := dir)) && Empty(s, file)
  {
    var file := KidLoc(s, dir, q);
    var k := q / FILE2BLK;
    forall x, i | PtrOf(s, x, i) == file.blk ensures FileAt(s, x).kind == Dir { SameCell(s, owner, x, i, dir, k); }
    forall x ensures Ptr(s, Ind(x)) != file.blk {
      if Ptr(s, Ind(x)) == file.blk { Unique(s, owner, Ind(x), SlotOf(s, dir, k)); }
    }
    var f := FileAt(s, file);
    assert f.direct == NoPtrs && f.indirect == 0 && f.size == 0 && (f.kind == Dir ==> f.size % BY2BLK == 0);
    forall i ensures PtrOf(s, file, i) == 0 {}
  }

  lemma TouchView(s: Fs, owner: Owner, dir: Loc, q: int)
    requires EmptyKid(s, owner, dir, q)
    ensures var file := KidLoc(s, dir, q); var s' := Touch(s, file, dir);
            && Inv(s', owner) && Live(s', file) && Empty(s', file) && Grow(s, s', Null) && s'.free == s.free
            && KidLoc(s', dir, q) == file
            && (forall x {:trigger FileAt(s', x)} ::
                  FileAt(s', x) == if x == file then FileAt(s, x).(dir := dir) else FileAt(s, x))
            && (forall x, k {:trigger PtrOf(s', x, k)} :: PtrOf(s', x, k) == PtrOf(s, x, k))
            && (forall x, k {:trigger Cell(s', x, k)} :: FileAt(s, x).kind == Reg ==> Cell(s', x, k) == Cell(s, x, k))
  {
    var file := KidLoc(s, dir, q);
    var f := FileAt(s, file).(dir := dir);
    var s' := Touch(s, file, dir);
    TouchReq(s, owner, dir, q);
    HeadInv(s, owner, file, f);
    HeadView(s, owner, file, f);
    forall x | Live(s, x) || x == file ensures Live(s', x) {}
    assert s'.free == s.free && |s'.blocks| == |s.blocks|;
    LeakSame(s, s', 0);
    assert PtrOf(s', dir, q / FILE2BLK) == PtrOf(s, dir, q / FILE2BLK);
    hide Inv, Touch, PutFile, FileAt, Ptr, PtrOf, Live, HeadReq;
    forall x, k
      ensures FileAt(s, x).kind == Reg ==> Cell(s', x, k) == Cell(s, x, k)
      ensures GrowCell(s, s', x, k)
    {
      HeadCell(s, owner, file, f, x, k);
      assert PtrOf(s', x, k) == PtrOf(s, x, k);
    }
    forall k ensures PtrOf(s', file, k) == 0 { assert PtrOf(s, file, k) == 0; }
  }

  lemma OwnedOf(s: Fs, owner: Owner)
    requires Inv(s, owner)
    ensures Owned(s, owner)
  {}

  lemma NoneMore(s: Fs, dir: Loc, q: int, name: string)
    requires NoneBefore(s, dir, q, name) && KidName(s, dir, q) != name
    ensures NoneBefore(s, dir, q + 1, name)
  {}

  /** The first record without a name is the q-th, and the blocks up to it are there. */
  ghost predicate FirstEmpty(s: Fs, dir: Loc, q: int) {
    && 0 <= q < NKids(s, dir) && KidName(s, dir, q) == "" && NoneBefore(s, dir, q, "")
    && forall k {:trigger PtrOf(s, dir, k)} :: 0 <= k <= q / FILE2BLK ==> PtrOf(s, dir, k) != 0
  }

  // ---- what an operation in a directory leaves of it, and of everything else ----

  /** The directory keeps its name, its type and its blocks; it may be a block larger, and new blocks were free. */
  ghost predicate DirGrew(s: Fs, s': Fs, dir: Loc) {
    && FileAt(s', dir).name == FileAt(s, dir).name && FileAt(s', dir).kind == FileAt(s, dir).kind
    && (FileAt(s', dir).size == FileAt(s, dir).size || FileAt(s', dir).size == FileAt(s, dir).size + BY2BLK)
    && forall k {:trigger PtrOf(s', dir, k)} ::
         && (PtrOf(s, dir, k) != 0 ==> PtrOf(s', dir, k) == PtrOf(s, dir, k))
         && (PtrOf(s, dir, k) == 0 && PtrOf(s', dir, k) != 0 ==> !InUse(s, PtrOf(s', dir, k)))
  }

  /** All its records have the names they had, but for the q-th, if there is one, which had none. */
  ghost predicate NamesBut(s: Fs, s': Fs, dir: Loc, q: int) {
    && (q >= 0 ==> KidName(s, dir, q) == "")
    && forall p {:trigger KidName(s', dir, p)} :: p >= 0 && p != q ==> KidName(s', dir, p) == KidName(s, dir, p)
  }

  /** Every record in use but `d` and `e` keeps its name, size and type and reads the same. */
  ghost predicate KeptBut(s: Fs, s': Fs, d: Loc, e: Loc) {
    && (forall x {:trigger FileAt(s', x)} :: x != d && x != e && Used(s, x) ==> SameFace(FileAt(s, x), FileAt(s', x)))
    && (forall x, k {:trigger PtrOf(s', x, k)} :: x != d && x != e && Used(s, x) ==> GrowCell(s, s', x, k))
  }

  lemma GrowKept(s: Fs, s': Fs, d: Loc, e: Loc)
    requires Grow(s, s', d)
    ensures KeptBut(s, s', d, e)
  {
    forall x, k | x != d && x != e && Used(s, x) ensures GrowCell(s, s', x, k) { var z := PtrOf(s', x, k); }
    hide GrowCell, FileAt, PtrOf;
  }

  /** Growth but for the directory, then but for a record in one of its blocks. */
  lemma KeptThen(s: Fs, s1: Fs, s2: Fs, o1: Owner, dir: Loc, q: int, file: Loc)
    requires Grow(s, s1, dir) && Grow(s1, s2, file) && Owned(s1, o1) && Used(s, dir) && q >= 0
    requires file == KidLoc(s1, dir, q) && PtrOf(s1, dir, q / FILE2BLK) != 0
    ensures KeptBut(s, s2, dir, file)
  {
    forall x, k | x != dir && x != file && Used(s, x) ensures GrowCell(s, s2, x, k) {
      if PtrOf(s1, x, k) == file.blk { SameCell(s1, o1, x, k, dir, q / FILE2BLK); }
      hide Grow, Owned, PtrOf;
      GrowCellThen(s, s1, s2, o1, dir, file, x, k);
    }
    hide GrowCell, FileAt, PtrOf, Owned;
    forall x | x != dir && x != file && Used(s, x) ensures SameFace(FileAt(s, x), FileAt(s2, x)) {
      assert x.At? ==> InUse(s1, x.blk);
      assert SameFace(FileAt(s, x), FileAt(s1, x));
    }
  }

  /** Holes filled anywhere leave a directory as it is. */
  lemma GrowNames(s: Fs, s': Fs, o: Owner, o': Owner, dir: Loc)
    requires Grow(s, s', Null) && Inv(s, o) && Inv(s', o') && Used(s, dir)
    ensures DirGrew(s, s', dir) && NamesBut(s, s', dir, -1)
  {
    assert SameFace(FileAt(s, dir), FileAt(s', dir));
    forall k ensures GrowCell(s, s', dir, k) { GrowCellAt(s, s', dir, k); }
    hide FileAt, Inv, Grow;
    forall p | p >= 0 ensures KidName(s', dir, p) == KidName(s, dir, p) { NameKept(s, s', o, o', dir, p); }
  }

  lemma NameKept(s: Fs, s': Fs, o: Owner, o': Owner, dir: Loc, p: int)
    requires Grow(s, s', Null) && Inv(s, o) && Inv(s', o') && Used(s, dir) && p >= 0
    ensures KidName(s', dir, p) == KidName(s, dir, p)
  {
    if PtrOf(s', dir, p / FILE2BLK) != 0 {
      OwnedOf(s, o);
      SameKidName(s, s', o, dir, p);
    } else {
      GrowCellAt(s, s', dir, p / FILE2BLK);
      NoBlockNoName(s, o, dir, p);
      NoBlockNoName(s', o', dir, p);
    }
  }

  lemma NoBlockNoName(s: Fs, o: Owner, dir: Loc, p: int)
    requires Inv(s, o) && p >= 0 && PtrOf(s, dir, p / FILE2BLK) == 0
    ensures KidName(s, dir, p) == ""
  {
    assert !InUse(s, 0);
  }

  lemma DirGrewThen(s: Fs, s1: Fs, s2: Fs, dir: Loc, q: int)
    requires DirGrew(s, s1, dir) && DirGrew(s1, s2, dir) && NamesBut(s, s1, dir, -1) && NamesBut(s1, s2, dir, q)
    requires FileAt(s1, dir).size == FileAt(s, dir).size || FileAt(s2, dir).size == FileAt(s1, dir).size
    requires forall b {:trigger InUse(s1, b)} :: InUse(s, b) ==> InUse(s1, b)
    ensures DirGrew(s, s2, dir) && NamesBut(s, s2, dir, q)
  {
    hide FileAt, PtrOf, InUse;
    forall k ensures PtrOf(s, dir, k) != 0 ==> PtrOf(s2, dir, k) == PtrOf(s, dir, k) {
      assert PtrOf(s, dir, k) != 0 ==> PtrOf(s1, dir, k) == PtrOf(s, dir, k);
    }
    forall p | p >= 0 && p != q ensures KidName(s2, dir, p) == KidName(s, dir, p) {
      assert KidName(s1, dir, p) == KidName(s, dir, p);
    }
    if q >= 0 { assert KidName(s1, dir, q) == KidName(s, dir, q); }
  }

  lemma GrowUse(s: Fs, s': Fs, d: Loc)
    requires Grow(s, s', d)
    ensures forall b {:trigger InUse(s', b)} :: InUse(s, b) ==> InUse(s', b)
  {}

  /** A larger size, every block and record as before. */
  lemma ResizedNames(s: Fs, s': Fs, dir: Loc)
    requires Resized(s, s', dir, FileAt(s, dir).size + BY2BLK)
    ensures DirGrew(s, s', dir) && NamesBut(s, s', dir, -1)
    ensures FileAt(s', dir).size == FileAt(s, dir).size + BY2BLK
  {
    hide PtrOf, FileAt;
    assert FileAt(s', dir) == FileAt(s, dir).(size := FileAt(s, dir).size + BY2BLK);
    forall p | p >= 0 ensures KidName(s', dir, p) == KidName(s, dir, p) {
      assert PtrOf(s', dir, p / FILE2BLK) == PtrOf(s, dir, p / FILE2BLK);
      assert FileAt(s', KidLoc(s, dir, p)).name == FileAt(s, KidLoc(s, dir, p)).name;
    }
  }

  /** A record stored with all its slots. */
  lemma PutNames(s: Fs, o: Owner, dir: Loc, q: int, file: Loc, f: File)
    requires Owned(s, o) && CanPut(s, file) && file != dir && q >= 0 && file == KidLoc(s, dir, q)
    requires PtrOf(s, dir, q / FILE2BLK) != 0
    ensures var s' := PutFile(s, file, f);
      && DirGrew(s, s', dir) && FileAt(s', dir) == FileAt(s, dir) && KidName(s', dir, q) == f.name
      && (KidName(s, dir, q) == "" ==> NamesBut(s, s', dir, q))
      && (KidName(s, dir, q) == f.name ==> NamesBut(s, s', dir, -1))
  {
    var s' := PutFile(s, file, f);
    SamePtrsPut(s, dir, file, f);
    PutFileAt(s, file, f);
    hide PtrOf, FileAt, PutFile, CanPut, Owned;
    forall p | p >= 0 ensures KidName(s', dir, p) == if p == q then f.name else KidName(s, dir, p) {
      assert PtrOf(s', dir, p / FILE2BLK) == PtrOf(s, dir, p / FILE2BLK);
      if p != q { KidsApart(s, o, dir, q, p); }
    }
  }

  /** dir->f_size += BY2BLK and a block for it; the size stays bumped when there is none. */
  method GrowDir(m: Server, dir: Loc, i: int) returns (r: int, bno: int)
    requires DirHandle(m, dir) && i == FileAt(m.V(), dir).size / BY2BLK && NoneBefore(m.V(), dir, FILE2BLK * i, "")
    requires forall k {:trigger PtrOf(m.V(), dir, k)} :: 0 <= k < i ==> PtrOf(m.V(), dir, k) != 0
    modifies m
    ensures DirHandle(m, dir) && old(m.cache.Keys) <= m.cache.Keys && Grow(old(m.V()), m.V(), dir)
    ensures SameFace(FileAt(old(m.V()), dir).(size := FileAt(old(m.V()), dir).size + BY2BLK), FileAt(m.V(), dir))
    ensures r != 0 ==> (r == -E_INVAL && i >= NINDIRECT) || (r == -E_NO_DISK && NoFree(m.V()))
    ensures FreeCount(m.free) >= FreeCount(old(m.free)) - 2
    ensures r == 0 ==> bno == PtrOf(m.V(), dir, i) != 0 && bno in m.cache && NoneBefore(m.V(), dir, FILE2BLK * i, "")
    ensures r == 0 ==> !InUse(old(m.V()), bno) && NoNames(m.V(), bno)
    ensures DirGrew(old(m.V()), m.V(), dir) && NamesBut(old(m.V()), m.V(), dir, -1)
  {
    ghost var s, o := m.V(), m.owner;
    GrowFits(m, dir);
    hide SizeFits, Inv, Server.CacheOk, DirGrew, NamesBut;
    SetSize(m, dir, m.Get(dir).size + BY2BLK);
    ghost var s1 := m.V();
    ResizedNames(s, s1, dir);
    GrewNames(s, s1, dir);
    ResizedGrow(s, s1, dir, FileAt(s, dir).size + BY2BLK, i);
    r, bno := FileGetBlock(m, dir, i);
    FilledHead(s1, m.V(), dir, i);
    FilledGrow(s1, m.V(), dir, i, Null);
    OwnedOf(s1, o);
    hide Inv, PtrOf, FileAt, Live, NoneBefore, Grow, InUse, CanPut;
    NoneBeforeFilled(s1, m.V(), o, dir, i, "");
    GrowThen(s, s1, m.V(), o, dir, Null);
    FilledAt(s1, m.V(), dir, i);
    GrowNames(s1, m.V(), o, m.owner, dir);
    DirGrewThen(s, s1, m.V(), dir, -1);
  }

  lemma GrewNames(s: Fs, s': Fs, dir: Loc)
    requires Resized(s, s', dir, FileAt(s, dir).size + BY2BLK)
    ensures forall b {:trigger InUse(s', b)} :: InUse(s, b) ==> InUse(s', b)
  {}

  lemma GrowFits(m: Server, dir: Loc)
    requires DirHandle(m, dir)
    ensures m.Cached(dir) && m.Get(dir) == FileAt(m.V(), dir) && FileAt(m.V(), dir).size % BY2BLK == 0
    ensures SizeFits(m.V(), dir, FileAt(m.V(), dir).size + BY2BLK)
  {
    m.Handled(dir);
    DirSizeOk(m, dir);
    Within(m.V(), m.owner, dir);
    hide FileAt, PtrOf, Inv;
  }

  lemma FilledAt(s: Fs, s': Fs, dir: Loc, i: int)
    requires Filled(s, s', dir, i) && Used(s, dir)
    ensures PtrOf(s, dir, i) == 0 && PtrOf(s', dir, i) != 0 ==>
      !InUse(s, PtrOf(s', dir, i)) && NoNames(s', PtrOf(s', dir, i))
  {
    FilledGrow(s, s', dir, i, Null);
    assert GrowCell(s, s', dir, i);
  }

  lemma ResizedGrow(s: Fs, s': Fs, dir: Loc, size: int, i: int)
    requires Resized(s, s', dir, size)
    ensures Grow(s, s', dir) && (NoneBefore(s, dir, FILE2BLK * i, "") ==> NoneBefore(s', dir, FILE2BLK * i, ""))
    ensures forall k {:trigger PtrOf(s', dir, k)} :: PtrOf(s', dir, k) == PtrOf(s, dir, k)
    ensures forall b {:trigger InUse(s', b)} :: InUse(s', b) <==> InUse(s, b)
    ensures FileAt(s', dir) == FileAt(s, dir).(size := size)
  {
    forall b ensures InUse(s', b) <==> InUse(s, b) {}
    LeakSame(s, s', 0);
    hide PtrOf, FileAt, InUse, Live;
    forall x, k ensures GrowCell(s, s', x, k) { assert PtrOf(s', x, k) == PtrOf(s, x, k); }
    forall p | 0 <= p < FILE2BLK * i && NoneBefore(s, dir, FILE2BLK * i, "") ensures KidName(s', dir, p) != "" {
      assert KidName(s, dir, p) != "" && PtrOf(s', dir, p / FILE2BLK) == PtrOf(s, dir, p / FILE2BLK);
      assert FileAt(s', KidLoc(s, dir, p)).name == FileAt(s, KidLoc(s, dir, p)).name;
    }
  }

  /** What dir_alloc_file hands out: an empty record, the first without a name. Its type is whatever that
      record last had. */
  ghost predicate NewRecord(s: Fs, s': Fs, dir: Loc, file: Loc, q: int) {
    && 0 <= q < NKids(s', dir) && file == KidLoc(s', dir, q) && NoneBefore(s', dir, q, "")
    && FileAt(s', file).name == "" && Empty(s', file) && FileAt(s', file).dir == dir
    && FileAt(s', file).kind == FileAt(s, file).kind
  }

  /** A record found in an existing block was there before, or the block was free. */
  lemma KindKept(s: Fs, s1: Fs, owner: Owner, dir: Loc, i: int, j: int)
    requires Grow(s, s1, Null) && Used(s, dir) && PtrOf(s1, dir, i) != 0 && Owned(s, owner)
    ensures FileAt(s1, At(PtrOf(s1, dir, i), j)).kind == FileAt(s, At(PtrOf(s1, dir, i), j)).kind
  {
    GrowCellAt(s, s1, dir, i);
    var x := At(PtrOf(s1, dir, i), j);
    if PtrOf(s, dir, i) == 0 {
      assert FileAt(s1, x).kind == Reg;
    } else {
      assert Used(s, x);
    }
  }

  method TouchFile(m: Server, dir: Loc, file: Loc, ghost q: int)
    requires DirHandle(m, dir) && EmptyKid(m.V(), m.owner, dir, q) && file == KidLoc(m.V(), dir, q)
    requires file.blk in m.cache
    requires 0 <= q < NKids(m.V(), dir) && NoneBefore(m.V(), dir, q, "")
    modifies m
    ensures DirHandle(m, dir) && m.Handle(file) && m.cache.Keys == old(m.cache.Keys)
    ensures m.V() == Touch(old(m.V()), file, dir) && Grow(old(m.V()), m.V(), Null) && m.free == old(m.free)
    ensures NewRecord(old(m.V()), m.V(), dir, file, q)
    ensures DirGrew(old(m.V()), m.V(), dir) && NamesBut(old(m.V()), m.V(), dir, -1)
    ensures FileAt(m.V(), dir) == FileAt(old(m.V()), dir)
  {
    ghost var s := m.V();
    TouchNames(m, dir, file, q);
    hide DirGrew, NamesBut;
    var f := KidGet(m, dir, file, q);
    TouchView(s, m.owner, dir, q);
    NoneBeforeGrow(s, Touch(s, file, dir), dir, q);
    hide Inv, FileAt, PtrOf, Live, CanPut, NoneBefore, Grow, Empty;
    m.Put(file, f.(dir := dir));
    assert FileAt(m.V(), dir).size == FileAt(s, dir).size;
  }

  lemma TouchNames(m: Server, dir: Loc, file: Loc, q: int)
    requires DirHandle(m, dir) && EmptyKid(m.V(), m.owner, dir, q) && file == KidLoc(m.V(), dir, q)
    ensures var s' := Touch(m.V(), file, dir);
      DirGrew(m.V(), s', dir) && NamesBut(m.V(), s', dir, -1) && FileAt(s', dir) == FileAt(m.V(), dir)
  {
    OwnedOf(m.V(), m.owner);
    var f := FileAt(m.V(), file).(dir := dir);
    assert file != dir by { assert FileAt(m.V(), file).name == ""; }
    hide Inv, Owned, DirGrew, NamesBut;
    PutNames(m.V(), m.owner, dir, q, file, f);
  }

  lemma NoneBeforeGrow(s: Fs, s': Fs, dir: Loc, q: int)
    requires NoneBefore(s, dir, q, "")
    requires forall x {:trigger FileAt(s', x)} :: FileAt(s', x).name == FileAt(s, x).name
    requires forall x, k {:trigger PtrOf(s', x, k)} :: PtrOf(s', x, k) == PtrOf(s, x, k)
    ensures NoneBefore(s', dir, q, "")
  {
    forall p | 0 <= p < q ensures KidName(s', dir, p) != "" {
      assert KidName(s, dir, p) != "" && PtrOf(s', dir, p / FILE2BLK) == PtrOf(s, dir, p / FILE2BLK);
      hide FileAt, PtrOf;
    }
  }

  method KidGet(m: Server, dir: Loc, file: Loc, ghost q: int) returns (f: File)
    requires DirHandle(m, dir) && EmptyKid(m.V(), m.owner, dir, q) && file == KidLoc(m.V(), dir, q)
    requires file.blk in m.cache
    ensures f == FileAt(m.V(), file)
  {
    KidCached(m, dir, q / FILE2BLK, q % FILE2BLK);
    return m.Get(file);
  }

  /** The first empty record, if its block is there, is where the scan stops, with nothing changed. */
  lemma AtFirstEmpty(s: Fs, s1: Fs, owner: Owner, dir: Loc, q0: int, i: int, q: int)
    requires Owned(s, owner) && Grow(s, s1, Null) && Used(s, dir) && FirstEmpty(s, dir, q0) && i >= 0
    requires NoneBefore(s1, dir, FILE2BLK * i, "") && FILE2BLK * i <= q
    ensures i <= q0 / FILE2BLK
    ensures s1 == s && NoneBefore(s1, dir, q, "") && KidName(s1, dir, q) == "" ==> q == q0
  {
    var k := q0 / FILE2BLK;
    assert PtrOf(s, dir, k) != 0;
    GrowCellAt(s, s1, dir, k);
    assert KidLoc(s1, dir, q0) == KidLoc(s, dir, q0);
    assert Used(s, KidLoc(s, dir, q0));
    assert SameFace(FileAt(s, KidLoc(s, dir, q0)), FileAt(s1, KidLoc(s, dir, q0)));
    assert i > k ==> q0 < FILE2BLK * i;
    assert KidName(s1, dir, q0) == "";
  }

  ghost predicate AllocResult(s: Fs, s': Fs, dir: Loc, r: int, file: Loc, q: int) {
    && (r == 0 ==> NewRecord(s, s', dir, file, q))
    && (r == 0 || (r == -E_INVAL && FileAt(s, dir).size / BY2BLK >= NINDIRECT) || (r == -E_NO_DISK && NoFree(s')))
    && FreeCount(s'.free) + ScanCost(s, dir) + 2 >= FreeCount(s.free)
    && (CanScan(s, dir) && Present(s, dir, "") ==> r == 0)
    && forall q0 {:trigger FirstEmpty(s, dir, q0)} ::
         FirstEmpty(s, dir, q0) ==> r == 0 && q == q0 && CanPut(s, file) && s' == Touch(s, file, dir)
  }

  ghost predicate NoFirstEmpty(s: Fs, dir: Loc) {
    forall q0 {:trigger FirstEmpty(s, dir, q0)} :: !FirstEmpty(s, dir, q0)
  }

  lemma NoneBeforeLess(s: Fs, dir: Loc, p: int, q: int, name: string)
    requires NoneBefore(s, dir, q, name) && p <= q
    ensures NoneBefore(s, dir, p, name)
  {}

  /** A scan that ran past some block did not pass the first empty record. */
  lemma NotPassed(s: Fs, s1: Fs, owner: Owner, dir: Loc, i: int)
    requires Grow(s, s1, Null) && Used(s, dir) && Owned(s, owner) && NoneBefore(s1, dir, FILE2BLK * i, "") && i >= 0
    requires (i == FileAt(s, dir).size / BY2BLK && FileAt(s, dir).size % BY2BLK == 0) || PtrOf(s, dir, i) == 0
    ensures NoFirstEmpty(s, dir)
  {
    forall q0 | FirstEmpty(s, dir, q0) ensures false {
      AtFirstEmpty(s, s1, owner, dir, q0, i, FILE2BLK * i);
    }
  }

  lemma FoundEmpty(m: Server, s: Fs, o: Owner, dir: Loc, i: int, bno: int, j: int)
    requires DirHandle(m, dir) && Found(m, s, dir, i, bno, j, "") && Grow(s, m.V(), Null) && Inv(s, o) && Used(s, dir)
    ensures var q := FILE2BLK * i + j;
            && EmptyKid(m.V(), m.owner, dir, q) && At(bno, j) == KidLoc(m.V(), dir, q)
            && 0 <= q < NKids(m.V(), dir) && NoneBefore(m.V(), dir, q, "") && bno in m.cache
            && FileAt(m.V(), At(bno, j)).kind == FileAt(s, At(bno, j)).kind
            && forall q0 {:trigger FirstEmpty(s, dir, q0)} :: FirstEmpty(s, dir, q0) ==> m.V() == s && q == q0
  {
    var q := FILE2BLK * i + j;
    DirSizeOk(m, dir);
    OwnedOf(s, o);
    hide Grow, NoneBefore, FirstEmpty, Inv, Owned, PtrOf, FileAt;
    KindKept(s, m.V(), o, dir, i, j);
    NoneBeforeLess(m.V(), dir, FILE2BLK * i, q, "");
    FirstIs(m, s, o, dir, i, bno, j);
  }

  lemma FirstIs(m: Server, s: Fs, o: Owner, dir: Loc, i: int, bno: int, j: int)
    requires DirHandle(m, dir) && Found(m, s, dir, i, bno, j, "") && Grow(s, m.V(), Null) && Owned(s, o) && Used(s, dir)
    requires NoneBefore(m.V(), dir, FILE2BLK * i, "")
    ensures var q := FILE2BLK * i + j;
      forall q0 {:trigger FirstEmpty(s, dir, q0)} :: FirstEmpty(s, dir, q0) ==> m.V() == s && q == q0
  {
    var q := FILE2BLK * i + j;
    hide Grow, NoneBefore, Inv, Owned, PtrOf, FileAt;
    forall q0 | FirstEmpty(s, dir, q0) ensures m.V() == s && q == q0 {
      AtFirstEmpty(s, m.V(), o, dir, q0, i, q);
    }
  }

  lemma NewKept(s: Fs, s1: Fs, s2: Fs, dir: Loc, file: Loc, q: int)
    requires NewRecord(s1, s2, dir, file, q) && FileAt(s1, file).kind == FileAt(s, file).kind
    ensures NewRecord(s, s2, dir, file, q)
  {}

  /** A record in a new block at the end of the directory. */
  method NewBlock(m: Server, dir: Loc, i: int, ghost s: Fs, ghost o: Owner) returns (r: int, file: Loc, ghost q: int)
    requires DirHandle(m, dir) && Scanned(s, m.V(), dir, i, "") && i == FileAt(m.V(), dir).size / BY2BLK
    requires Used(s, dir) && Inv(s, o) && NoFirstEmpty(s, dir) && ScanSays(s, m.V(), dir, NONE, "")
    modifies m
    ensures DirHandle(m, dir) && old(m.cache.Keys) <= m.cache.Keys && Grow(s, m.V(), dir)
    ensures r == 0 ==> m.Handle(file)
    ensures AllocResult(s, m.V(), dir, r, file, q)
    ensures DirGrew(s, m.V(), dir) && NamesBut(s, m.V(), dir, -1)
  {
    hide Inv, PtrOf, FileAt, Live, CanPut, Grow, InUse, NoneBefore, NewRecord, FirstEmpty, Touch, FreeCount;
    hide DirGrew, NamesBut;
    hide ScanCost, CanScan, NoFree;
    ghost var s1, o1 := m.V(), m.owner;
    ScanEnd(m, s, s1, dir, i);
    OwnedOf(s1, o1);
    GrowWider(s, s1, dir);
    file, q := Null, 0;
    var bno;
    ScannedNames(s, s1, o, o1, dir, i);
    r, bno := GrowDir(m, dir, i);
    ghost var s2 := m.V();
    GrowThen(s, s1, s2, o1, dir, dir);
    DirGrewThen(s, s1, s2, dir, -1);
    if r < 0 { return; }
    file, q := FirstOfBlock(m, dir, i, bno, s, s1);
    GrowUse(s, s2, dir);
    DirGrewThen(s, s2, m.V(), dir, -1);
  }

  lemma ScannedNames(s: Fs, s1: Fs, o: Owner, o1: Owner, dir: Loc, i: int)
    requires Scanned(s, s1, dir, i, "") && Inv(s, o) && Inv(s1, o1) && Used(s, dir)
    ensures DirGrew(s, s1, dir) && NamesBut(s, s1, dir, -1) && FileAt(s1, dir).size == FileAt(s, dir).size
    ensures forall b {:trigger InUse(s1, b)} :: InUse(s, b) ==> InUse(s1, b)
  {
    GrowNames(s, s1, o, o1, dir);
  }

  lemma ScanEnd(m: Server, s: Fs, s1: Fs, dir: Loc, i: int)
    requires DirHandle(m, dir) && m.V() == s1 && Scanned(s, s1, dir, i, "") && i == FileAt(s1, dir).size / BY2BLK
    ensures i >= 0 && i == FileAt(s, dir).size / BY2BLK && Grow(s, s1, Null) && NoneBefore(s1, dir, FILE2BLK * i, "")
    ensures forall k {:trigger PtrOf(s1, dir, k)} :: 0 <= k < i ==> PtrOf(s1, dir, k) != 0
  {
    DirSizeOk(m, dir);
    hide Inv, PtrOf, Grow, NoneBefore;
  }

  /** The first record of the new block. */
  method FirstOfBlock(m: Server, dir: Loc, i: int, bno: int, ghost s: Fs, ghost s1: Fs)
    returns (file: Loc, ghost q: int)
    requires DirHandle(m, dir) && i >= 0 && bno == PtrOf(m.V(), dir, i) != 0 && bno in m.cache && Used(s, dir)
    requires Grow(s, s1, dir) && !InUse(s1, bno) && NoNames(m.V(), bno) && i < FileAt(m.V(), dir).size / BY2BLK
    requires Grow(s, m.V(), dir) && NoneBefore(m.V(), dir, FILE2BLK * i, "")
    modifies m
    ensures DirHandle(m, dir) && old(m.cache.Keys) <= m.cache.Keys && Grow(s, m.V(), dir) && m.Handle(file)
    ensures NewRecord(s, m.V(), dir, file, q) && m.free == old(m.free)
    ensures DirGrew(old(m.V()), m.V(), dir) && NamesBut(old(m.V()), m.V(), dir, -1)
    ensures FileAt(m.V(), dir) == FileAt(old(m.V()), dir)
  {
    hide DirGrew, NamesBut;
    ghost var s2, o2 := m.V(), m.owner;
    file, q := At(bno, 0), FILE2BLK * i;
    NewEmpty(m, s, s1, dir, i, bno);
    OwnedOf(s2, o2);
    hide Inv, PtrOf, FileAt, Live, CanPut, Grow, InUse, NoneBefore, NewRecord, Touch, EmptyKid;
    TouchFile(m, dir, file, q);
    GrowThen(s, s2, m.V(), o2, dir, Null);
    NewKept(s, s2, m.V(), dir, file, q);
  }

  lemma NewEmpty(m: Server, s: Fs, s1: Fs, dir: Loc, i: int, bno: int)
    requires DirHandle(m, dir) && i >= 0 && bno == PtrOf(m.V(), dir, i) != 0 && bno in m.cache
    requires Grow(s, s1, dir) && !InUse(s1, bno) && NoNames(m.V(), bno) && i < FileAt(m.V(), dir).size / BY2BLK
    ensures var q := FILE2BLK * i;
            && EmptyKid(m.V(), m.owner, dir, q) && At(bno, 0) == KidLoc(m.V(), dir, q) && 0 <= q < NKids(m.V(), dir)
            && FileAt(m.V(), At(bno, 0)).kind == FileAt(s, At(bno, 0)).kind
  {
    DirSizeOk(m, dir);
    KidCached(m, dir, i, 0);
    assert FileAt(m.V(), At(bno, 0)).name == "";
    assert !InUse(s, bno);
  }

  /**
    dir_alloc_file. When the first empty record's block is there, only that record's parent changes. It fails
    only for a directory of the largest size, or on a full disk.
   */
  method DirAllocFile(m: Server, dir: Loc) returns (r: int, file: Loc, ghost q: int)
    requires DirHandle(m, dir)
    modifies m
    ensures DirHandle(m, dir) && old(m.cache.Keys) <= m.cache.Keys && Grow(old(m.V()), m.V(), dir)
    ensures r == 0 ==> m.Handle(file)
    ensures AllocResult(old(m.V()), m.V(), dir, r, file, q)
    ensures DirGrew(old(m.V()), m.V(), dir) && NamesBut(old(m.V()), m.V(), dir, -1)
  {
    assert Used(m.V(), dir);
    hide DirGrew, NamesBut;
    hide Inv, PtrOf, FileAt, CanPut, Grow, NoneBefore, Filled, Scanned, Found, NewRecord, FirstEmpty, Touch, NoFree;
    hide KidLoc, NKids;
    hide ScanSays, FreeCount;
    ghost var s, o := m.V(), m.owner;
    file, q := Null, 0;
    var i, bno, j;
    r, i, bno, j := Scan(m, dir, "");
    ScanTells(m, s, o, dir, r, i, bno, j, "");
    ghost var s1 := m.V();
    GrowWider(s, s1, dir);
    GrowNames(s, s1, o, m.owner, dir);
    if r == 0 {
      file, q := EmptyFound(m, dir, i, bno, j, s, o);
    } else if r == NONE {
      OwnedOf(s, o);
      DirSizeOk(m, dir);
      ScannedNone(s, s1, dir, i);
      NotPassed(s, s1, o, dir, i);
      hide Live, InUse;
      r, file, q := NewBlock(m, dir, i, s, o);
    } else {
      OwnedOf(s, o);
      NotPassed(s, s1, o, dir, i);
      ScanFailed(s, s1, dir, r, i);
    }
  }

  lemma ScanFailed(s: Fs, s1: Fs, dir: Loc, r: int, i: int)
    requires ScanSays(s, s1, dir, r, "") && NoFirstEmpty(s, dir)
    requires (r == -E_INVAL && i >= NINDIRECT) || (r == -E_NO_DISK && NoFree(s1))
    ensures AllocResult(s, s1, dir, r, Null, 0)
  {
    hide NoFree, FirstEmpty, NewRecord, Touch, FileAt, PtrOf, FreeCount, Present;
  }

  /** An empty record in one of the directory's blocks. */
  method EmptyFound(m: Server, dir: Loc, i: int, bno: int, j: int, ghost s: Fs, ghost o: Owner)
    returns (file: Loc, ghost q: int)
    requires DirHandle(m, dir) && Found(m, s, dir, i, bno, j, "") && Grow(s, m.V(), Null) && Grow(s, m.V(), dir)
    requires Inv(s, o) && Used(s, dir) && ScanSays(s, m.V(), dir, 0, "")
    requires DirGrew(s, m.V(), dir) && NamesBut(s, m.V(), dir, -1)
    modifies m
    ensures DirHandle(m, dir) && old(m.cache.Keys) <= m.cache.Keys && Grow(s, m.V(), dir) && m.Handle(file)
    ensures AllocResult(s, m.V(), dir, 0, file, q)
    ensures DirGrew(s, m.V(), dir) && NamesBut(s, m.V(), dir, -1)
  {
    hide DirGrew, NamesBut;
    hide Inv, PtrOf, FileAt, CanPut, Grow, NoneBefore, Found, NewRecord, FirstEmpty, Touch, NoFree, KidLoc, NKids;
    hide Present;
    hide FreeCount, CanScan, ScanCost, Solid, EmptyKid;
    ghost var s1, o1 := m.V(), m.owner;
    file, q := At(bno, j), FILE2BLK * i + j;
    FoundEmpty(m, s, o, dir, i, bno, j);
    hide Live, InUse;
    TouchFile(m, dir, file, q);
    OwnedOf(s1, o1);
    GrowThen(s, s1, m.V(), o1, dir, Null);
    GrowUse(s, s1, dir);
    DirGrewThen(s, s1, m.V(), dir, -1);
    NewKept(s, s1, m.V(), dir, file, q);
    EmptyIsFirst(s, s1, m.V(), o1, dir, file, q);
  }

  lemma EmptyIsFirst(s: Fs, s1: Fs, s2: Fs, o1: Owner, dir: Loc, file: Loc, q: int)
    requires EmptyKid(s1, o1, dir, q) && file == KidLoc(s1, dir, q) && s2 == Touch(s1, file, dir)
    requires forall q0 {:trigger FirstEmpty(s, dir, q0)} :: FirstEmpty(s, dir, q0) ==> s1 == s && q == q0
    ensures forall q0 {:trigger FirstEmpty(s, dir, q0)} :: FirstEmpty(s, dir, q0) ==>
      q == q0 && CanPut(s, file) && s2 == Touch(s, file, dir)
  {
    hide FirstEmpty, Touch, CanPut, Inv, FileAt, PtrOf;
  }

  lemma ScannedNone(s: Fs, s1: Fs, dir: Loc, i: int)
    requires Scanned(s, s1, dir, i, "")
    ensures NoneBefore(s1, dir, FILE2BLK * i, "") && SameHead(FileAt(s, dir), FileAt(s1, dir))
  {}

  // ---- creating and removing ----

  /** A new record can be had: one is empty, or a block more is allowed and there are blocks for it. */
  ghost predicate CanAdd(s: Fs, dir: Loc) {
    && CanScan(s, dir)
    && (Present(s, dir, "") || (FileAt(s, dir).size / BY2BLK < NINDIRECT && FreeCount(s.free) > ScanCost(s, dir) + 2))
  }

  /** ... and `extra` blocks are left. */
  ghost predicate CanGrow(s: Fs, dir: Loc, extra: nat) {
    CanAdd(s, dir) && FreeCount(s.free) > ScanCost(s, dir) + 2 + extra
  }

  /** Why file_create and copy fail: a scan is stopped, or no record is to be had. */
  ghost predicate Refused(s: Fs, s': Fs, dir: Loc) {
    FileAt(s, dir).size / BY2BLK >= NINDIRECT || NoFree(s')
  }

  /**
    file_create in a directory: refused when the name is there, and nothing but the name is set. When no record
    can be had the result is dir_lookup's -E_NOT_FOUND.
   */
  method FileCreate(m: Server, dir: Loc, name: string) returns (r: int, file: Loc, ghost q: int)
    requires DirHandle(m, dir) && name != ""
    modifies m
    ensures m.Valid() && m.Handle(dir) && old(m.cache.Keys) <= m.cache.Keys
    ensures r == -E_FILE_EXISTS ==> Present(old(m.V()), dir, name)
    ensures r == 0 || r == -E_NOT_FOUND ==> !Present(old(m.V()), dir, name)
    ensures r == -E_NOT_FOUND ==> Refused(old(m.V()), m.V(), dir)
    ensures r == -E_INVAL ==> FileAt(old(m.V()), dir).size / BY2BLK > NINDIRECT
    ensures r == -E_NO_DISK ==> NoFree(m.V()) && !Solid(old(m.V()), dir)
    ensures r == -E_FILE_EXISTS || r == 0 || r == -E_NOT_FOUND || r == -E_INVAL || r == -E_NO_DISK
    ensures CanScan(old(m.V()), dir) ==> (r == -E_FILE_EXISTS <==> Present(old(m.V()), dir, name))
    ensures CanAdd(old(m.V()), dir) ==> (r == 0 <==> !Present(old(m.V()), dir, name))
    ensures r == 0 ==> Created(old(m.V()), m.V(), dir, file, name) && m.Handle(file)
    ensures r == 0 ==> TakesFirst(old(m.V()), m.V(), dir, file, q)
    ensures r != 0 && r != -E_NOT_FOUND ==> Grow(old(m.V()), m.V(), Null)
    ensures Undone(old(m.V()), m.V(), dir, r != 0) && (r == 0 ==> Done(old(m.V()), m.V(), dir, file, q, name))
  {
    assert Used(m.V(), dir);
    hide Inv, FileAt, PtrOf, Live, CanPut, Grow, Created, NewRecord, NoneBefore, NoFree, FirstEmpty, Touch, KidLoc;
    hide NKids, DirGrew, NamesBut, KeptBut;
    hide Present, FreeCount, CanAdd, Refused, AllocResult, Solid, CanScan, ScanCost, TakesFirst, Looked;
    ghost var s, o := m.V(), m.owner;
    file := Null;
    r, file, q := DirLookup(m, dir, name);
    LookedSays(s, m.V(), dir, r, file, q, name);
    ghost var s1, o1 := m.V(), m.owner;
    LookedNames(s, s1, o, o1, dir, r, file, q, name);
    if r == 0 { return -E_FILE_EXISTS, file, q; }
    if r != -E_NOT_FOUND { return; }
    DirSizeOk(m, dir);
    r, file, q := DirAllocFile(m, dir);
    ghost var s2 := m.V();
    AllocTells(s, s1, s2, o, dir, r, file, q, name, 0);
    AllocNames(s, s1, s2, o1, dir);
    // the source returns dir_lookup's result here
    if r < 0 { return -E_NOT_FOUND, file, q; }
    NamedAfter(m, s, s1, o1, dir, file, q, name);
    NameFile(m, dir, file, name, q, s, s1, o1);
    FirstTaken(s, s1, s2, o, dir, file, q, name);
    r := 0;
  }

  /** Nothing but the directory's size, and holes, has changed, if `failed`. */
  ghost predicate Undone(s: Fs, s': Fs, dir: Loc, failed: bool) {
    failed ==> Grow(s, s', dir) && DirGrew(s, s', dir) && NamesBut(s, s', dir, -1)
  }

  /** The directory has one named record more, the q-th, everything else is as it was, and every block taken for it
      is in a slot. */
  ghost predicate Done(s: Fs, s': Fs, dir: Loc, file: Loc, q: int, name: string) {
    && DirGrew(s, s', dir) && NamesBut(s, s', dir, q) && q >= 0 && KidName(s', dir, q) == name
    && file == KidLoc(s', dir, q) && KeptBut(s, s', dir, file) && NoLeak(s, s', 0)
  }

  lemma LookedNames(s: Fs, s1: Fs, o: Owner, o1: Owner, dir: Loc, r: int, file: Loc, q: int, name: string)
    requires Looked(s, s1, dir, r, file, q, name) && Inv(s, o) && Inv(s1, o1) && Used(s, dir)
    ensures DirGrew(s, s1, dir) && NamesBut(s, s1, dir, -1) && FileAt(s1, dir).size == FileAt(s, dir).size
    ensures Grow(s, s1, dir)
  {
    GrowNames(s, s1, o, o1, dir);
    GrowWider(s, s1, dir);
  }

  lemma AllocNames(s: Fs, s1: Fs, s2: Fs, o1: Owner, dir: Loc)
    requires Grow(s, s1, dir) && Grow(s1, s2, dir) && Inv(s1, o1) && Used(s, dir)
    requires DirGrew(s, s1, dir) && NamesBut(s, s1, dir, -1) && FileAt(s1, dir).size == FileAt(s, dir).size
    requires DirGrew(s1, s2, dir) && NamesBut(s1, s2, dir, -1)
    ensures Undone(s, s2, dir, true)
  {
    OwnedOf(s1, o1);
    hide Inv, Owned, DirGrew, NamesBut, Grow, FileAt;
    GrowUse(s, s1, dir);
    GrowThen(s, s1, s2, o1, dir, dir);
    DirGrewThen(s, s1, s2, dir, -1);
  }

  /** The name stored in the new record. */
  lemma NamedAfter(m: Server, s: Fs, s1: Fs, o1: Owner, dir: Loc, file: Loc, q: int, name: string)
    requires DirHandle(m, dir) && m.Handle(file) && name != "" && Used(s, dir)
    requires Undone(s, m.V(), dir, true) && NewRecord(s1, m.V(), dir, file, q)
    ensures CanPut(m.V(), file)
    ensures Done(s, PutFile(m.V(), file, FileAt(m.V(), file).(name := name)), dir, file, q, name)
  {
    NamedAs(s, s1, m.V(), m.owner, dir, file, q, FileAt(m.V(), file).(name := name));
  }

  /** The name, and perhaps a type, stored in the new record. */
  lemma NamedAs(s: Fs, s1: Fs, s2: Fs, o2: Owner, dir: Loc, file: Loc, q: int, f: File)
    requires Undone(s, s2, dir, true) && NewRecord(s1, s2, dir, file, q) && Inv(s2, o2) && Live(s2, file)
    requires Named(s2, dir) && Used(s, dir) && f == FileAt(s2, file).(name := f.name, kind := f.kind)
    ensures CanPut(s2, file) && Done(s, PutFile(s2, file, f), dir, file, q, f.name)
  {
    NewNotDir(s2, s1, dir, file, q);
    OwnedOf(s2, o2);
    NewHere(s1, s2, o2, dir, file, q);
    HeadGrow(s2, o2, file, f);
    PutNames(s2, o2, dir, q, file, f);
    var s3 := PutFile(s2, file, f);
    assert PtrOf(s3, dir, q / FILE2BLK) == PtrOf(s2, dir, q / FILE2BLK);
    GrowLeak(s, s2, s3, dir, file);
    hide NoLeak;
    hide Inv, Owned, DirGrew, NamesBut, Grow, FileAt, PutFile, PtrOf, KeptBut;
    GrowUse(s, s2, dir);
    DirGrewThen(s, s2, s3, dir, q);
    KeptThen(s, s2, s3, o2, dir, q, file);
  }

  lemma GrowLeak(s: Fs, s2: Fs, s3: Fs, d: Loc, d': Loc)
    requires Grow(s, s2, d) && Grow(s2, s3, d')
    ensures NoLeak(s, s3, 0)
  {
    LeakThen(s, s2, s3, 0);
  }

  lemma NewHere(s1: Fs, s2: Fs, o2: Owner, dir: Loc, file: Loc, q: int)
    requires NewRecord(s1, s2, dir, file, q) && Live(s2, file) && Inv(s2, o2)
    ensures q >= 0 && PtrOf(s2, dir, q / FILE2BLK) != 0 && file == KidLoc(s2, dir, q) && KidName(s2, dir, q) == ""
    ensures file != Root && FileAt(s2, file).name == "" && Empty(s2, file)
  {
    assert !InUse(s2, 0);
  }

  /**
    Where a new file goes: into the first record without a name, if the directory has one. Then a directory
    without holes keeps its size and its blocks.
   */
  ghost predicate TakesFirst(s: Fs, s': Fs, dir: Loc, file: Loc, q: int) {
    && file == KidLoc(s', dir, q)
    && (Present(s, dir, "") ==> 0 <= q < NKids(s, dir) && NoneBefore(s, dir, q, "") && KidName(s, dir, q) == "")
    && (Present(s, dir, "") ==>
          forall k {:trigger PtrOf(s', dir, k)} :: PtrOf(s, dir, k) != 0 ==> PtrOf(s', dir, k) == PtrOf(s, dir, k))
    && (Present(s, dir, "") && Solid(s, dir) ==>
          && FileAt(s', dir) == FileAt(s, dir)
          && forall k {:trigger PtrOf(s', dir, k)} :: PtrOf(s', dir, k) == PtrOf(s, dir, k))
  }

  lemma LookedSays(s0: Fs, s: Fs, dir: Loc, r: int, file: Loc, q: int, name: string)
    requires Looked(s0, s, dir, r, file, q, name)
    ensures r == 0 || r == -E_NOT_FOUND || r == -E_INVAL || r == -E_NO_DISK
    ensures Grow(s0, s, Null)
    ensures r == 0 ==> Present(s0, dir, name)
    ensures r == -E_NOT_FOUND ==> !Present(s0, dir, name)
    ensures r == -E_INVAL ==> FileAt(s0, dir).size / BY2BLK > NINDIRECT
    ensures r == -E_NO_DISK ==> NoFree(s) && !Solid(s0, dir)
    ensures CanScan(s0, dir) ==> r == 0 || r == -E_NOT_FOUND
    ensures CanAdd(s0, dir) ==> CanScan(s0, dir)
  {
    hide Grow, FileAt, PtrOf, NoneBefore, NKids, KidLoc, NoFree, FreeCount, Present, Solid, CanScan;
  }

  /** The first empty record after the lookup was the first before. */
  lemma FirstTaken(s: Fs, s1: Fs, s2: Fs, o: Owner, dir: Loc, file: Loc, q: int, name: string)
    requires Inv(s, o) && Used(s, dir) && Looked(s, s1, dir, -E_NOT_FOUND, Null, 0, name)
    requires FileAt(s1, dir).size % BY2BLK == 0
    requires AllocResult(s1, s2, dir, 0, file, q) && CanPut(s2, file) && file != dir
    ensures TakesFirst(s, PutFile(s2, file, FileAt(s2, file).(name := name)), dir, file, q)
  {
    var s' := PutFile(s2, file, FileAt(s2, file).(name := name));
    OwnedOf(s, o);
    assert Grow(s, s1, Null);
    SamePtrsPut(s2, dir, file, FileAt(s2, file).(name := name));
    if Present(s, dir, "") {
      EmptyAfter(s, s1, o, dir);
      var p := LeastEmpty(s1, dir);
      assert FirstEmpty(s1, dir, p) by { FirstSolid(s1, dir, p); }
      assert q == p && s2 == Touch(s1, file, dir);
      SamePtrsPut(s1, dir, file, FileAt(s1, file).(dir := dir));
      FirstBefore(s, s1, o, dir, p);
      forall k | PtrOf(s, dir, k) != 0 ensures PtrOf(s1, dir, k) == PtrOf(s, dir, k) { GrowCellAt(s, s1, dir, k); }
    }
  }

  lemma SamePtrsPut(s: Fs, dir: Loc, file: Loc, f: File)
    requires CanPut(s, file) && file != dir
    ensures var s' := PutFile(s, file, f);
      && FileAt(s', dir) == FileAt(s, dir)
      && forall k {:trigger PtrOf(s', dir, k)} :: PtrOf(s', dir, k) == PtrOf(s, dir, k)
  {
    PutFileAt(s, file, f);
    hide PutFile, CanPut;
  }

  lemma LeastEmpty(s: Fs, dir: Loc) returns (p: int)
    requires Present(s, dir, "")
    ensures 0 <= p < NKids(s, dir) && KidName(s, dir, p) == "" && NoneBefore(s, dir, p, "")
  {
    hide KidName, NKids;
    var w :| 0 <= w < NKids(s, dir) && KidName(s, dir, w) == "";
    p := 0;
    while KidName(s, dir, p) != ""
      invariant 0 <= p <= w && NoneBefore(s, dir, p, "")
      decreases w - p
    {
      p := p + 1;
    }
  }

  lemma FirstSolid(s: Fs, dir: Loc, p: int)
    requires Solid(s, dir) && FileAt(s, dir).size % BY2BLK == 0
    requires 0 <= p < NKids(s, dir) && KidName(s, dir, p) == "" && NoneBefore(s, dir, p, "")
    ensures FirstEmpty(s, dir, p)
  {
    hide PtrOf, FileAt, NoneBefore;
  }

  lemma FirstBefore(s: Fs, s1: Fs, o: Owner, dir: Loc, p: int)
    requires Grow(s, s1, Null) && Used(s, dir) && Owned(s, o) && FileAt(s, dir).size == FileAt(s1, dir).size
    requires FileAt(s1, dir).size % BY2BLK == 0 && Solid(s1, dir)
    requires 0 <= p < NKids(s1, dir) && KidName(s1, dir, p) == "" && NoneBefore(s1, dir, p, "")
    ensures 0 <= p < NKids(s, dir) && KidName(s, dir, p) == "" && NoneBefore(s, dir, p, "")
  {
    hide Grow, Owned, PtrOf, FileAt;
    forall x | 0 <= x <= p ensures KidName(s, dir, x) == KidName(s1, dir, x) {
      assert PtrOf(s1, dir, x / FILE2BLK) != 0;
      SameKidName(s, s1, o, dir, x);
    }
  }

  /** A record asked for after a lookup that found nothing. */
  lemma AllocTells(s: Fs, s1: Fs, s2: Fs, o: Owner, dir: Loc, r: int, file: Loc, q: int, name: string, extra: nat)
    requires Looked(s, s1, dir, -E_NOT_FOUND, Null, 0, name)
    requires Used(s, dir) && Inv(s, o) && AllocResult(s1, s2, dir, r, file, q)
    ensures r == 0 || r < 0
    ensures r == 0 ==> NewRecord(s1, s2, dir, file, q)
    ensures r != 0 ==> Refused(s, s2, dir)
    ensures CanAdd(s, dir) ==> r == 0
    ensures CanGrow(s, dir, extra) ==> r == 0 && FreeCount(s2.free) > extra
  {
    OwnedOf(s, o);
    hide Inv, Grow, PtrOf, FileAt, NewRecord, FirstEmpty, NoFree, Touch, Present, Owned;
    if r == -E_NO_DISK { FullCount(s2); }
    hide FreeCount;
    if CanAdd(s, dir) && Present(s, dir, "") { EmptyAfter(s, s1, o, dir); }
  }

  lemma EmptyAfter(s: Fs, s1: Fs, o: Owner, dir: Loc)
    requires Owned(s, o) && Grow(s, s1, Null) && SameHead(FileAt(s, dir), FileAt(s1, dir)) && Used(s, dir)
    requires Present(s, dir, "")
    ensures Present(s1, dir, "")
  {
    var q :| 0 <= q < NKids(s, dir) && KidName(s, dir, q) == "";
    GrowCellAt(s, s1, dir, q / FILE2BLK);
    var x := KidLoc(s, dir, q);
    assert KidName(s1, dir, q) == "" by {
      if PtrOf(s, dir, q / FILE2BLK) != 0 {
        assert Used(s, x) && SameFace(FileAt(s, x), FileAt(s1, x));
      } else if PtrOf(s1, dir, q / FILE2BLK) != 0 {
        assert FileAt(s1, KidLoc(s1, dir, q)).name == "";
      } else {
        assert !InUse(s1, 0);
      }
    }
  }

  /** strcpy(f->f_name, name). */
  method NameFile(m: Server, dir: Loc, file: Loc, name: string, ghost q: int, ghost s: Fs, ghost s1: Fs,
                  ghost o1: Owner)
    requires DirHandle(m, dir) && m.Handle(file) && name != ""
    requires Grow(s, s1, Null) && Grow(s1, m.V(), dir) && Inv(s1, o1) && Used(s, dir)
    requires NewRecord(s1, m.V(), dir, file, q)
    modifies m
    ensures m.Valid() && m.Handle(dir) && m.Handle(file) && m.cache.Keys == old(m.cache.Keys)
    ensures Created(s, m.V(), dir, file, name) && file != dir
    ensures CanPut(old(m.V()), file) && m.V() == PutFile(old(m.V()), file, FileAt(old(m.V()), file).(name := name))
  {
    NewNotDir(m.V(), s1, dir, file, q);
    hide Inv, FileAt, PtrOf, Live, CanPut, Grow, Created, NewRecord;
    CreateReady(m, s, s1, o1, dir, file, q, name);
    m.Put(file, m.Get(file).(name := name));
  }

  lemma NewNotDir(s: Fs, s1: Fs, dir: Loc, file: Loc, q: int)
    requires NewRecord(s1, s, dir, file, q) && Named(s, dir)
    ensures file != dir
  {}

  /** The new file is an empty record of the directory, of whatever type that record last had; every other
      record keeps its name, size and type. */
  ghost predicate Created(s: Fs, s': Fs, dir: Loc, file: Loc, name: string) {
    && Live(s', file) && FileAt(s', file).name == name && FileAt(s', file).size == 0 && Empty(s', file)
    && FileAt(s', file).dir == dir
    && (Used(s, file) ==> FileAt(s', file).kind == FileAt(s, file).kind)
    && (exists q :: 0 <= q < NKids(s', dir) && file == KidLoc(s', dir, q))
    && forall x {:trigger FileAt(s', x)} :: Used(s, x) && x != dir && x != file ==>
         SameFace(FileAt(s, x), FileAt(s', x))
  }

  lemma CreateReady(m: Server, s: Fs, s1: Fs, o1: Owner, dir: Loc, file: Loc, q: int, name: string)
    requires DirHandle(m, dir) && m.Handle(file) && name != ""
    requires Grow(s, s1, Null) && Grow(s1, m.V(), dir) && Inv(s1, o1) && Used(s, dir)
    requires NewRecord(s1, m.V(), dir, file, q)
    ensures m.Cached(file) && m.Get(file) == FileAt(m.V(), file) && CanPut(m.V(), file)
    ensures var s' := PutFile(m.V(), file, FileAt(m.V(), file).(name := name));
            && Inv(s', m.owner) && Live(s', file) && Live(s', dir) && Created(s, s', dir, file, name)
  {
    var s2 := m.V();
    m.Handled(file);
    var f := FileAt(s2, file).(name := name);
    LiveBlock(s2, m.owner, file);
    RenameView(s2, m.owner, file, name);
    var s' := PutFile(s2, file, f);
    assert KidLoc(s', dir, q) == file && FileAt(s', dir).size == FileAt(s2, dir).size by {
      assert PtrOf(s', dir, q / FILE2BLK) == PtrOf(s2, dir, q / FILE2BLK);
    }
    assert 0 <= q < NKids(s', dir);
    hide Inv, PtrOf, Live, CanPut, PutFile;
    forall x | Used(s, x) && x != dir && x != file ensures SameFace(FileAt(s, x), FileAt(s', x)) {
      assert x.At? ==> InUse(s1, x.blk);
      assert SameFace(FileAt(s, x), FileAt(s1, x)) && SameFace(FileAt(s1, x), FileAt(s2, x));
    }
    if Used(s, file) { assert SameFace(FileAt(s, file), FileAt(s1, file)); }
  }

  lemma RenameView(s: Fs, owner: Owner, file: Loc, name: string)
    requires Inv(s, owner) && Live(s, file) && Empty(s, file) && FileAt(s, file).name == "" && file != Root
    requires name != ""
    ensures CanPut(s, file)
    ensures var s' := PutFile(s, file, FileAt(s, file).(name := name));
            && Inv(s', owner) && Empty(s', file) && FileAt(s, file).size == 0
            && (forall x {:trigger Live(s', x)} :: Live(s, x) ==> Live(s', x))
            && (forall x {:trigger FileAt(s', x)} ::
                  FileAt(s', x) == if x == file then FileAt(s, file).(name := name) else FileAt(s, x))
            && (forall x, k {:trigger PtrOf(s', x, k)} :: PtrOf(s', x, k) == PtrOf(s, x, k))
  {
    var f := FileAt(s, file).(name := name);
    var s' := PutFile(s, file, f);
    LiveBlock(s, owner, file);
    assert FileOk(f) by { assert BlockOk(s.blocks[file.blk]); }
    HeadInv(s, owner, file, f);
    HeadView(s, owner, file, f);
    forall x ensures Live(s, x) ==> Live(s', x) {}
    forall k ensures PtrOf(s', file, k) == 0 { assert PtrOf(s, file, k) == 0; }
  }

  lemma HeadGrow(s: Fs, owner: Owner, file: Loc, f: File)
    requires Inv(s, owner) && Live(s, file) && file != Root && f == FileAt(s, file).(name := f.name, kind := f.kind)
    ensures CanPut(s, file) && Grow(s, PutFile(s, file, f), file)
  {
    LiveBlock(s, owner, file);
    var s' := PutFile(s, file, f);
    assert FileOk(f) by { assert BlockOk(s.blocks[file.blk]); }
    forall x | Live(s, x) ensures Live(s', x) {}
    HeadView(s, owner, file, f);
    assert HeadPut(s, owner, file, f);
    assert |s'.blocks| == |s.blocks|;
    LeakSame(s, s', 0);
    hide Inv, PutFile, FileAt, Ptr, PtrOf, Live, Empty, CanPut, HeadPut;
    forall x, k ensures GrowCell(s, s', x, k) {
      HeadCell(s, owner, file, f, x, k);
      assert PtrOf(s', x, k) == PtrOf(s, x, k);
    }
  }

  /** file_remove, once the file is found and the user has agreed: truncated, and its name cleared. The
      record keeps its type. A directory's own records are gone with its blocks. */
  method FileRemove(m: Server, loc: Loc)
    requires m.Valid() && m.Handle(loc) && Named(m.V(), loc) && loc != Root
    modifies m
    ensures m.Valid() && m.Handle(loc) && old(m.cache.Keys) <= m.cache.Keys
    ensures Removed(old(m.V()), m.V(), loc)
  {
    ghost var s := m.V();
    FileTruncate(m, loc, 0);
    ghost var s1 := m.V();
    RemoveReady(m, s, s1, loc);
    hide Inv, FileAt, PtrOf, Live, CanPut, Removed, Truncated;
    m.Put(loc, m.Get(loc).(name := ""));
  }

  /** Every block of the file is free and zero, no other block's state changes, its record is empty, and
      every record not in one of its blocks is as before. */
  ghost predicate Removed(s: Fs, s': Fs, loc: Loc) {
    && |s'.free| == |s.free|
    && (forall b {:trigger s'.free[b]} :: 0 <= b < |s.free| ==>
          s'.free[b] == (s.free[b] || Clears(s, loc, 0, NINDIRECT, b) || b == Ptr(s, Ind(loc)) != 0))
    && (forall x {:trigger FileAt(s', x)} ::
          if x == loc then FileAt(s', x) == Blank.(kind := FileAt(s, loc).kind, dir := FileAt(s, loc).dir)
          else FileAt(s', x) == if Lost(s, loc, 0, NINDIRECT, x) then Blank else FileAt(s, x))
    && (forall x, k {:trigger PtrOf(s', x, k)} ::
          PtrOf(s', x, k) == if x == loc || Lost(s, loc, 0, NINDIRECT, x) then 0 else PtrOf(s, x, k))
    && (forall x, k {:trigger Cell(s', x, k)} ::
          FileAt(s, x).kind == Reg && !Lost(s, loc, 0, NINDIRECT, x) && x != loc ==> Cell(s', x, k) == Cell(s, x, k))
    && (forall b {:trigger s'.blocks[b]} :: 0 <= b < |s.free| == |s'.blocks| && s'.free[b] && !s.free[b] ==>
         s'.blocks[b] == Zero)
  }

  lemma RemoveReady(m: Server, s: Fs, s1: Fs, loc: Loc)
    requires m.Valid() && m.V() == s1 && m.Handle(loc) && Named(s1, loc) && loc != Root && Truncated(s, s1, loc, 0)
    ensures m.Cached(loc) && m.Get(loc) == FileAt(s1, loc) && CanPut(s1, loc)
    ensures var s' := PutFile(s1, loc, FileAt(s1, loc).(name := ""));
            Inv(s', m.owner) && Live(s', loc) && Removed(s, s', loc)
  {
    m.Handled(loc);
    LiveBlock(s1, m.owner, loc);
    Unnamed(s, s1, m.owner, loc);
    var f := FileAt(s1, loc).(name := "");
    var s' := PutFile(s1, loc, f);
    hide Removed, Truncated, Inv, HeadReq, FileAt, PtrOf, PutFile, CanPut;
    HeadInv(s1, m.owner, loc, f);
    RemovedAt(s, s1, m.owner, loc);
  }

  /** Once truncated the record may lose its name. */
  lemma Unnamed(s: Fs, s1: Fs, o: Owner, loc: Loc)
    requires Inv(s1, o) && Live(s1, loc) && CanPut(s1, loc) && Named(s1, loc) && loc != Root && Truncated(s, s1, loc, 0)
    ensures var f := FileAt(s1, loc).(name := "");
      HeadReq(s1, o, loc, f) && f == Blank.(kind := FileAt(s, loc).kind, dir := FileAt(s, loc).dir)
  {
    var f := FileAt(s1, loc).(name := "");
    LiveBlock(s1, o, loc);
    if loc.At? { assert BlockOk(s1.blocks[loc.blk]); }
    assert Empty(s1, loc) by { forall k ensures PtrOf(s1, loc, k) == 0 { PtrNeg(s1, loc, k); } }
    assert f.indirect == 0 by { assert Ptr(s1, Ind(loc)) == 0; }
    assert f.direct == NoPtrs by {
      forall k | 0 <= k < NDIRECT ensures f.direct[k] == 0 { assert PtrOf(s1, loc, k) == 0; }
    }
  }

  lemma RemovedAt(s: Fs, s1: Fs, o: Owner, loc: Loc)
    requires Truncated(s, s1, loc, 0) && loc != Root && Live(s1, loc) && CanPut(s1, loc)
    requires HeadReq(s1, o, loc, FileAt(s1, loc).(name := ""))
    requires FileAt(s1, loc).(name := "") == Blank.(kind := FileAt(s, loc).kind, dir := FileAt(s, loc).dir)
    ensures var s' := PutFile(s1, loc, FileAt(s1, loc).(name := "")); Live(s', loc) && Removed(s, s', loc)
  {
    var f := FileAt(s1, loc).(name := "");
    var s' := PutFile(s1, loc, f);
    HeadView(s1, o, loc, f);
    assert Live(s', loc);
    assert forall b {:trigger s'.blocks[b]} :: 0 <= b < |s1.blocks| && b != loc.blk ==> s'.blocks[b] == s1.blocks[b];
    assert s'.free[loc.blk] == false && |s'.blocks| == |s1.blocks|;
    hide PutFile, CanPut, Clears, Live, FileAt, PtrOf, Lost, Inv;
    forall x, k | FileAt(s, x).kind == Reg && !Lost(s, loc, 0, NINDIRECT, x) && x != loc
      ensures Cell(s', x, k) == Cell(s, x, k)
    {
      HeadCell(s1, o, loc, f, x, k);
      assert FileAt(s1, x) == FileAt(s, x);
      assert Cell(s1, x, k) == Cell(s, x, k);
    }
    forall x, k ensures PtrOf(s', x, k) == if x == loc || Lost(s, loc, 0, NINDIRECT, x) then 0 else PtrOf(s, x, k) {
      assert PtrOf(s', x, k) == PtrOf(s1, x, k);
      if x == loc && k < 0 { PtrNeg(s, loc, k); PtrNeg(s1, loc, k); }
    }
  }

  lemma PtrNeg(s: Fs, loc: Loc, k: int)
    ensures k < 0 ==> PtrOf(s, loc, k) == 0
  {}
}
