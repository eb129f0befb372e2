/**
  The type of a new file (fs/fs.c): file_create sets none, so the record's last type stays.
 */
module FsStale {
  import opened FsModel
  import opened FsOps
  import opened FsServer
  import opened FsFile
  import opened FsTruncate
  import opened FsTree
  import opened FsDir

  // ---- removing and creating ----

  /** No record of a directory lies in a block of one of its files, and the directory does not either. */
  lemma KidsNotLost(s: Fs, o: Owner, dir: Loc, q0: int, p: int)
    requires Inv(s, o) && Live(s, dir) && 0 <= q0 && p >= 0
    requires FileAt(s, KidLoc(s, dir, q0)).name != "" && PtrOf(s, dir, p / FILE2BLK) != 0
    ensures var loc := KidLoc(s, dir, q0);
      !Lost(s, loc, 0, NINDIRECT, KidLoc(s, dir, p)) && !Lost(s, loc, 0, NINDIRECT, dir) && loc != dir
  {
    var loc := KidLoc(s, dir, q0);
    KidDeeper(s, o, dir, q0);
    hide FileAt, Ptr, PtrOf, SlotOf;
    forall k | PtrOf(s, loc, k) != 0 && PtrOf(s, loc, k) == PtrOf(s, dir, p / FILE2BLK) ensures false {
      SameCell(s, o, loc, k, dir, p / FILE2BLK);
    }
    forall k | PtrOf(s, loc, k) != 0 ensures dir.At? ==> dir.blk != PtrOf(s, loc, k) {
      BlockDepth(s, o, loc, k);
    }
  }

  /** What removing record `q0` leaves of its directory. */
  ghost predicate DirKept(s: Fs, s1: Fs, dir: Loc, q0: int) {
    && FileAt(s1, dir) == FileAt(s, dir)
    && (forall k {:trigger PtrOf(s1, dir, k)} :: PtrOf(s1, dir, k) == PtrOf(s, dir, k))
    && forall p {:trigger KidName(s1, dir, p)} :: p >= 0 ==>
         KidName(s1, dir, p) == if p == q0 then "" else KidName(s, dir, p)
  }

  lemma RemovedKeeps(s: Fs, s1: Fs, o: Owner, dir: Loc, q0: int)
    requires Inv(s, o) && Live(s, dir) && q0 >= 0 && FileAt(s, KidLoc(s, dir, q0)).name != ""
    requires Removed(s, s1, KidLoc(s, dir, q0))
    ensures DirKept(s, s1, dir, q0)
  {
    var loc := KidLoc(s, dir, q0);
    KidDeeper(s, o, dir, q0);
    KidsNotLost(s, o, dir, q0, q0);
    assert FileAt(s1, dir) == FileAt(s, dir);
    hide Inv, Live, Lost, FileAt, PtrOf;
    forall p | p >= 0 ensures KidName(s1, dir, p) == if p == q0 then "" else KidName(s, dir, p) {
      assert PtrOf(s1, dir, p / FILE2BLK) == PtrOf(s, dir, p / FILE2BLK);
      if PtrOf(s, dir, p / FILE2BLK) != 0 {
        KidsNotLost(s, o, dir, q0, p);
        KidsApart(s, o, dir, p, q0);
      } else {
        HoleName(s, o, dir, p);
        HoleBlank(s, s1, loc, p % FILE2BLK);
      }
    }
  }

  lemma HoleName(s: Fs, o: Owner, dir: Loc, p: int)
    requires Inv(s, o) && p >= 0 && PtrOf(s, dir, p / FILE2BLK) == 0
    ensures KidName(s, dir, p) == ""
  {
    assert !InUse(s, 0);
  }

  lemma HoleBlank(s: Fs, s1: Fs, loc: Loc, j: int)
    requires Removed(s, s1, loc)
    ensures FileAt(s1, At(0, j)).name == "" && FileAt(s, At(0, j)).name == ""
  {
    assert !InUse(s, 0) && !InUse(s1, 0);
  }

  /** The directory is still one after a file of it is gone. */
  lemma DirStays(m: Server, s: Fs, dir: Loc, q0: int)
    requires m.Valid() && DirKept(s, m.V(), dir, q0) && Named(s, dir) && FileAt(s, dir).kind == Dir && Live(s, dir)
    requires dir.At? ==> dir.blk in m.cache
    ensures DirHandle(m, dir)
  {
    if dir.At? {
      assert FileAt(m.V(), dir).kind == Dir;
      assert BlockOk(m.blocks[dir.blk]);
    }
  }

  /** No record but the q0-th has the name. */
  ghost predicate OnlyAt(s: Fs, dir: Loc, q0: int, name: string) {
    forall p {:trigger KidName(s, dir, p)} :: 0 <= p < NKids(s, dir) && p != q0 ==> KidName(s, dir, p) != name
  }

  /**
    file_remove, then file_create in the same directory. The new file takes the removed record exactly when no
    record before it is without a name, and then it has the removed file's type.
   */
  method RemoveThenCreate(m: Server, dir: Loc, loc: Loc, name: string, ghost q0: int)
    returns (r: int, file: Loc, ghost s1: Fs)
    requires DirHandle(m, dir) && m.Handle(loc) && 0 <= q0 < NKids(m.V(), dir) && loc == KidLoc(m.V(), dir, q0)
    requires FileAt(m.V(), loc).name != "" && name != ""
    modifies m
    ensures m.Valid() && m.Handle(dir) && Removed(old(m.V()), s1, loc)
    ensures r == 0 ==> Created(s1, m.V(), dir, file, name) && FileAt(m.V(), file).name == name && m.Handle(file)
    ensures r == 0 ==> exists q :: Done(s1, m.V(), dir, file, q, name)
    ensures Undone(s1, m.V(), dir, r != 0)
    ensures r == 0 ==> (file == loc <==> NoneBefore(old(m.V()), dir, q0, ""))
    ensures r == 0 && file == loc ==> FileAt(m.V(), file).kind == FileAt(old(m.V()), loc).kind
    ensures Solid(old(m.V()), dir) ==> (r == 0 <==> OnlyAt(old(m.V()), dir, q0, name))
  {
    ghost var s, o := m.V(), m.owner;
    ghost var q: int;
    KidDeeper(s, o, dir, q0);
    FileRemove(m, loc);
    s1 := m.V();
    ghost var o1 := m.owner;
    RemovedKeeps(s, s1, o, dir, q0);
    DirStays(m, s, dir, q0);
    hide Inv, FileAt, PtrOf, Live, Removed, Created, TakesFirst, NoneBefore, DirKept, Solid, CanAdd, OnlyAt, KidLoc;
    hide NKids, Present, KidName, DirGrew, NamesBut, KeptBut;
    r, file, q := FileCreate(m, dir, name);
    RemovedCanAdd(s, s1, o1, dir, q0, name);
    if r == 0 {
      Landed(s, s1, m.V(), m.owner, dir, file, q0, q);
      NewKind(s, s1, m.V(), dir, loc, file, name);
    }
  }

  lemma RemovedCanAdd(s: Fs, s1: Fs, o1: Owner, dir: Loc, q0: int, name: string)
    requires DirKept(s, s1, dir, q0) && Inv(s1, o1) && 0 <= q0 < NKids(s, dir) && name != ""
    ensures Present(s1, dir, "") && (Solid(s, dir) ==> CanAdd(s1, dir))
    ensures !Present(s1, dir, name) <==> OnlyAt(s, dir, q0, name)
  {
    assert KidName(s1, dir, q0) == "" && NKids(s1, dir) == NKids(s, dir);
    if Solid(s, dir) {
      PtrInRange(s1, o1, dir, NINDIRECT);
      assert PtrOf(s1, dir, NINDIRECT) == PtrOf(s, dir, NINDIRECT);
    }
    hide PtrOf, FileAt, FreeCount, Inv;
    if OnlyAt(s, dir, q0, name) {
      forall p | 0 <= p < NKids(s1, dir) ensures KidName(s1, dir, p) != name {}
    } else {
      var p :| 0 <= p < NKids(s, dir) && p != q0 && KidName(s, dir, p) == name;
      assert KidName(s1, dir, p) == name;
    }
  }

  lemma Landed(s: Fs, s1: Fs, s2: Fs, o2: Owner, dir: Loc, file: Loc, q0: int, q: int)
    requires DirKept(s, s1, dir, q0) && Inv(s2, o2) && 0 <= q0 < NKids(s, dir) && PtrOf(s, dir, q0 / FILE2BLK) != 0
    requires TakesFirst(s1, s2, dir, file, q) && Present(s1, dir, "")
    ensures file == KidLoc(s, dir, q0) <==> NoneBefore(s, dir, q0, "")
  {
    OwnedOf(s2, o2);
    hide Inv, FileAt, PtrOf, Owned;
    assert KidName(s1, dir, q0) == "";
    assert PtrOf(s2, dir, q0 / FILE2BLK) == PtrOf(s1, dir, q0 / FILE2BLK) == PtrOf(s, dir, q0 / FILE2BLK);
    assert q <= q0;
    KidsApart(s2, o2, dir, q0, q);
    if NoneBefore(s, dir, q0, "") {
      assert q < q0 ==> KidName(s1, dir, q) == KidName(s, dir, q);
      assert q == q0;
    } else {
      var p :| 0 <= p < q0 && KidName(s, dir, p) == "";
      assert KidName(s1, dir, p) == "";
    }
  }

  lemma NewKind(s: Fs, s1: Fs, s2: Fs, dir: Loc, loc: Loc, file: Loc, name: string)
    requires Removed(s, s1, loc) && Live(s1, loc) && Created(s1, s2, dir, file, name)
    ensures FileAt(s2, file).name == name
    ensures file == loc ==> FileAt(s2, file).kind == FileAt(s, loc).kind
  {
    assert FileAt(s1, loc).kind == FileAt(s, loc).kind;
  }

  // ---- a run ----

  /** The last step of mkdir: f_type = FTYPE_DIR, on a new record. */
  lemma MakesDir(s: Fs, o: Owner, file: Loc)
    requires Inv(s, o) && Live(s, file) && Empty(s, file) && FileAt(s, file).name != "" && FileAt(s, file).size == 0
    ensures CanPut(s, file) && HeadReq(s, o, file, FileAt(s, file).(kind := Dir))
  {
    LiveBlock(s, o, file);
    if file.At? { assert BlockOk(s.blocks[file.blk]); }
  }

  /** The first empty record, or one in a new block, has become an empty directory; all else is as it was. */
  ghost predicate MadeDir(s: Fs, s1: Fs, dir: Loc, file: Loc, name: string, q: int) {
    && TakesFirst(s, s1, dir, file, q) && Done(s, s1, dir, file, q, name)
    && FileAt(s1, file).kind == Dir && FileAt(s1, file).size == 0 && Empty(s1, file)
  }

  /** The first record with the name is a directory, and mkdir says 0; or a file, and it fails. */
  ghost predicate Stands(s: Fs, dir: Loc, file: Loc, q: int, name: string, r: int) {
    && 0 <= q < NKids(s, dir) && file == KidLoc(s, dir, q) && NoneBefore(s, dir, q, name)
    && FileAt(s, file).name == name && r == if FileAt(s, file).kind == Dir then 0 else -E_NOT_FOUND
  }

  /** create_dir (mkdir) for one name of a directory. */
  method MakeDir(m: Server, dir: Loc, name: string) returns (r: int, file: Loc, made: bool, ghost q: int)
    requires DirHandle(m, dir) && name != ""
    modifies m
    ensures DirHandle(m, dir)
    ensures made ==>
      r == 0 && m.Handle(file) && !Present(old(m.V()), dir, name) && MadeDir(old(m.V()), m.V(), dir, file, name, q)
    ensures CanAdd(old(m.V()), dir) ==> (made <==> !Present(old(m.V()), dir, name))
    ensures r == 0 || r == -E_NOT_FOUND || (r == -1 && !CanScan(old(m.V()), dir))
    ensures CanScan(old(m.V()), dir) ==>
      if Present(old(m.V()), dir, name) then Stands(m.V(), dir, file, q, name, r) else r == 0 <==> made
    ensures r == 0 && !made ==> FileAt(m.V(), file).name == name && FileAt(m.V(), file).kind == Dir
    ensures r == 0 && !made ==> Grow(old(m.V()), m.V(), Null)
    ensures Undone(old(m.V()), m.V(), dir, !made)
  {
    assert Used(m.V(), dir);
    hide DirGrew, NamesBut, KeptBut, Empty, MadeDir, Stands;
    hide Inv, FileAt, PtrOf, Live, CanPut, Grow, Created, NewRecord, NoneBefore, NoFree, FirstEmpty, Touch, KidLoc;
    hide NKids;
    hide Present, FreeCount, CanAdd, Refused, AllocResult, Solid, CanScan, ScanCost, TakesFirst, Looked;
    ghost var s, o := m.V(), m.owner;
    file, made := Null, false;
    r, file, q := DirLookup(m, dir, name);
    LookedSays(s, m.V(), dir, r, file, q, name);
    LookedNames(s, m.V(), o, m.owner, dir, r, file, q, name);
    if r == 0 {
      LookedName(s, m.V(), dir, file, q, name);
      m.Handled(file);
      r := if m.Get(file).kind == Reg then -E_NOT_FOUND else 0;
      return;
    }
    if r != -E_NOT_FOUND { return -1, file, false, q; }
    file, made, q := NewDir(m, dir, name, s, o);
    r := if made then 0 else -E_NOT_FOUND;
  }

  /** ... the name being free: dir_alloc_file, the name and the type. */
  method NewDir(m: Server, dir: Loc, name: string, ghost s: Fs, ghost o: Owner)
    returns (file: Loc, made: bool, ghost q: int)
    requires DirHandle(m, dir) && name != "" && Inv(s, o) && Used(s, dir)
    requires Looked(s, m.V(), dir, -E_NOT_FOUND, Null, 0, name)
    requires Grow(s, m.V(), Null) && Undone(s, m.V(), dir, true) && FileAt(m.V(), dir).size == FileAt(s, dir).size
    modifies m
    ensures DirHandle(m, dir)
    ensures made ==> m.Handle(file) && MadeDir(s, m.V(), dir, file, name, q)
    ensures CanAdd(s, dir) ==> made
    ensures Undone(s, m.V(), dir, !made)
  {
    hide DirGrew, NamesBut, KeptBut, Empty, MadeDir, Done;
    hide Inv, FileAt, PtrOf, Live, CanPut, Grow, Created, NewRecord, NoneBefore, NoFree, FirstEmpty, Touch, KidLoc;
    hide NKids;
    hide Present, FreeCount, CanAdd, Refused, AllocResult, Solid, CanScan, ScanCost, TakesFirst, Looked, Used;
    ghost var s1, o1 := m.V(), m.owner;
    DirSizeOk(m, dir);
    var r;
    r, file, q := DirAllocFile(m, dir);
    ghost var s2 := m.V();
    AllocTells(s, s1, s2, o, dir, r, file, q, name, 0);
    AllocNames(s, s1, s2, o1, dir);
    if r < 0 { return file, false, q; }
    DirNamed(m, s, s1, s2, dir, file, q, name);
    NameFile(m, dir, file, name, q, s, s1, o1);
    FirstTaken(s, s1, s2, o, dir, file, q, name);
    CreatedDir(s, m.V(), dir, s2, file, name);
    SetDir(m, dir, file, name, s, s2, q);
    made := true;
  }

  lemma DirNamed(m: Server, s: Fs, s1: Fs, s2: Fs, dir: Loc, file: Loc, q: int, name: string)
    requires DirHandle(m, dir) && m.Handle(file) && s2 == m.V() && Undone(s, s2, dir, true)
    requires NewRecord(s1, s2, dir, file, q) && Used(s, dir)
    ensures CanPut(s2, file)
    ensures Done(s, PutFile(s2, file, FileAt(s2, file).(name := name, kind := Dir)), dir, file, q, name)
  {
    NamedAs(s, s1, s2, m.owner, dir, file, q, FileAt(s2, file).(name := name, kind := Dir));
  }

  lemma CreatedDir(s: Fs, s1: Fs, dir: Loc, s2: Fs, file: Loc, name: string)
    requires CanPut(s2, file) && s1 == PutFile(s2, file, FileAt(s2, file).(name := name)) && file != dir
    ensures FileAt(s1, dir) == FileAt(s2, dir)
  {
    PutFileAt(s2, file, FileAt(s2, file).(name := name));
  }

  lemma LookedName(s0: Fs, s: Fs, dir: Loc, file: Loc, q: int, name: string)
    requires Looked(s0, s, dir, 0, file, q, name)
    ensures FileAt(s, file).name == name
    ensures Stands(s, dir, file, q, name, if FileAt(s, file).kind == Dir then 0 else -E_NOT_FOUND)
  {}

  method SetDir(m: Server, dir: Loc, file: Loc, name: string, ghost s: Fs, ghost s2: Fs,
                ghost q: int)
    requires m.Valid() && m.Handle(dir) && m.Handle(file) && Created(s, m.V(), dir, file, name) && name != ""
    requires TakesFirst(s, m.V(), dir, file, q) && file != dir
    requires Named(m.V(), dir) && FileAt(m.V(), dir).kind == Dir && CanPut(s2, file)
    requires m.V() == PutFile(s2, file, FileAt(s2, file).(name := name))
    requires Done(s, PutFile(s2, file, FileAt(s2, file).(name := name, kind := Dir)), dir, file, q, name)
    modifies m
    ensures DirHandle(m, dir) && m.Handle(file) && MadeDir(s, m.V(), dir, file, name, q)
  {
    ghost var s1 := m.V();
    m.Handled(file);
    MakesDir(s1, m.owner, file);
    var f := m.Get(file).(kind := Dir);
    HeadInv(s1, m.owner, file, f);
    HeadView(s1, m.owner, file, f);
    SetDirLive(s1, dir, file, f);
    PutTwice(s2, file, name);
    hide Inv, FileAt, PtrOf, Live, PutFile, HeadReq, NKids, Present, Solid, NoneBefore, KidName, Done;
    m.Put(file, f);
    assert m.V() == PutFile(s1, file, f);
    forall k ensures PtrOf(m.V(), file, k) == 0 { assert PtrOf(s1, file, k) == 0; }
  }

  lemma PutTwice(s: Fs, file: Loc, name: string)
    requires CanPut(s, file)
    ensures var s' := PutFile(s, file, FileAt(s, file).(name := name));
      && CanPut(s', file)
      && PutFile(s', file, FileAt(s', file).(kind := Dir)) ==
         PutFile(s, file, FileAt(s, file).(name := name, kind := Dir))
  {
    var f, g := FileAt(s, file).(name := name), FileAt(s, file).(name := name, kind := Dir);
    PutFileAt(s, file, f);
    if file.At? {
      var recs := AsRecs(s.blocks[file.blk]);
      assert recs[file.j := f][file.j := g] == recs[file.j := g];
      assert s.blocks[file.blk := Recs(recs[file.j := f])][file.blk := Recs(recs[file.j := g])] ==
             s.blocks[file.blk := Recs(recs[file.j := g])];
    }
  }

  lemma SetDirLive(s: Fs, dir: Loc, file: Loc, f: File)
    requires CanPut(s, file) && Live(s, dir) && Live(s, file)
    ensures Live(PutFile(s, file, f), dir) && Live(PutFile(s, file, f), file)
  {}

  /** mkdir in a directory without holes: its other records, its size and its blocks are as before. */
  lemma MadeKeeps(s: Fs, s1: Fs, o: Owner, dir: Loc, file: Loc, q: int, a: string, b: string)
    requires Inv(s, o) && Live(s, dir) && FileAt(s, dir).size % BY2BLK == 0
    requires Solid(s, dir) && Present(s, dir, "") && MadeDir(s, s1, dir, file, a, q)
    requires !Present(s, dir, b)
    ensures 0 <= q < NKids(s1, dir) && file == KidLoc(s1, dir, q) && Solid(s1, dir)
    ensures NoneBefore(s1, dir, q, "") && OnlyAt(s1, dir, q, b)
    ensures FileAt(s1, file).name == a && FileAt(s1, file).kind == Dir
  {
    assert NKids(s1, dir) == NKids(s, dir);
    hide PtrOf, FileAt, Inv, Live, NoneBefore;
    assert forall p {:trigger KidName(s1, dir, p)} :: 0 <= p && p != q ==> KidName(s1, dir, p) == KidName(s, dir, p);
    assert NoneBefore(s, dir, q, "");
    forall p | 0 <= p < q ensures KidName(s1, dir, p) != "" { SomeBefore(s, dir, q, p); }
    NoneAre(s1, dir, q);
  }

  lemma NoneAre(s: Fs, dir: Loc, q: int)
    requires forall p {:trigger KidName(s, dir, p)} :: 0 <= p < q ==> KidName(s, dir, p) != ""
    ensures NoneBefore(s, dir, q, "")
  {
    hide KidName;
  }

  lemma SomeBefore(s: Fs, dir: Loc, q: int, p: int)
    requires NoneBefore(s, dir, q, "") && 0 <= p < q
    ensures KidName(s, dir, p) != ""
  {
    hide KidName;
  }

  /**
    mkdir a, remove a, then open b with O_CREAT, in a directory without holes that has a record to spare: the new
    "file" is a directory. `s1` is the state after mkdir, `s2` after the removal.
   */
  method StaleDirectory(m: Server, dir: Loc, a: string, b: string)
    returns (r: int, file: Loc, ghost s1: Fs, ghost s2: Fs, ghost q: int)
    requires DirHandle(m, dir) && Solid(m.V(), dir) && Present(m.V(), dir, "") && a != "" && b != ""
    requires !Present(m.V(), dir, a) && !Present(m.V(), dir, b)
    modifies m
    ensures m.Valid() && m.Handle(dir)
    ensures MadeDir(old(m.V()), s1, dir, file, a, q) && Removed(s1, s2, file) && Created(s2, m.V(), dir, file, b)
    ensures exists p :: Done(s2, m.V(), dir, file, p, b)
    ensures r == 0 && FileAt(m.V(), file).name == b && FileAt(m.V(), file).kind == Dir
  {
    ghost var s, o := m.V(), m.owner;
    DirSizeOk(m, dir);
    SolidAdds(s, o, dir);
    hide Inv, FileAt, PtrOf, Live, Solid, Present, CanAdd, TakesFirst, NoneBefore, OnlyAt, KidLoc, NKids, Done;
    hide MadeDir, Removed, DirGrew, NamesBut, KeptBut, Created;
    var made, gone;
    r, gone, made, q := MakeDir(m, dir, a);
    s1 := m.V();
    MadeKeeps(s, s1, o, dir, gone, q, a, b);
    r, file, s2 := RemoveThenCreate(m, dir, gone, b, q);
  }

  lemma SolidAdds(s: Fs, o: Owner, dir: Loc)
    requires Inv(s, o) && Solid(s, dir) && Present(s, dir, "")
    ensures CanAdd(s, dir)
  {
    if FileAt(s, dir).size / BY2BLK > NINDIRECT { PtrInRange(s, o, dir, NINDIRECT); }
    hide Present, FreeCount, PtrOf, FileAt;
  }
}
