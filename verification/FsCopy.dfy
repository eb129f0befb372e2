/**
  copy_deep: an equal tree in fresh blocks (fs/fs.c).
 */
module FsCopy {
  import opened FsModel
  import opened FsOps
  import opened FsServer
  import opened FsFile
  import opened FsTree
  import opened FsDir

  // ---- the head of the copy ----

  /** strcpy of the name, and the size and type. */
  function Head(s: Fs, d: Loc, src: Loc): Fs
    requires CanPut(s, d)
  {
    var f := FileAt(s, src);
    PutFile(s, d, FileAt(s, d).(name := f.name, size := f.size, kind := f.kind))
  }

  /** A clean destination: a record with no blocks, other than the source's. */
  ghost predicate Clean(s: Fs, d: Loc, src: Loc) {
    d != src && d.At? && Live(s, d) && Empty(s, d) && FileAt(s, d).indirect == 0
  }

  lemma HeadCopied(s: Fs, owner: Owner, d: Loc, src: Loc)
    requires Inv(s, owner) && Clean(s, d, src) && Named(s, src) && FileAt(s, src).name != ""
    ensures CanPut(s, d)
    ensures var s' := Head(s, d, src);
            && Inv(s', owner) && Grow(s, s', d) && Live(s', d) && Empty(s', d) && s'.free == s.free
            && SameFace(FileAt(s, src), FileAt(s', d)) && FileAt(s', src) == FileAt(s, src)
            && (forall x, k {:trigger PtrOf(s', x, k)} :: PtrOf(s', x, k) == PtrOf(s, x, k))
  {
    var f := FileAt(s, src);
    var g := FileAt(s, d).(name := f.name, size := f.size, kind := f.kind);
    LiveBlock(s, owner, d);
    LiveBlock(s, owner, src);
    assert FileOk(g) by {
      assert BlockOk(s.blocks[d.blk]);
      if src.At? { assert BlockOk(s.blocks[src.blk]); }
    }
    var s' := Head(s, d, src);
    HeadInv(s, owner, d, g);
    HeadView(s, owner, d, g);
    forall x ensures Live(s, x) ==> Live(s', x) {}
    forall b ensures InUse(s', b) <==> InUse(s, b) {}
    LeakSame(s, s', 0);
    hide Inv, FileAt, PtrOf, PutFile, Live, InUse;
    forall x, k ensures GrowCell(s, s', x, k) {
      HeadCell(s, owner, d, g, x, k);
      assert PtrOf(s', x, k) == PtrOf(s, x, k);
    }
    forall k ensures PtrOf(s', d, k) == 0 { assert PtrOf(s, d, k) == 0; }
  }

  // ---- the state of a copy ----

  /** `n` blocks of source and destination are there, the destination's all taken since s0. */
  ghost predicate Copying(s0: Fs, s: Fs, d: Loc, src: Loc, n: int) {
    && Grow(s0, s, d) && Live(s, d) && Live(s, src) && d != src && Used(s0, d) && Used(s0, src) && n >= 0
    && SameFace(FileAt(s0, src), FileAt(s, src)) && SameFace(FileAt(s0, src), FileAt(s, d))
    && (forall k {:trigger PtrOf(s, src, k)} :: 0 <= k < n ==> PtrOf(s, src, k) != 0)
    && (forall k {:trigger PtrOf(s, d, k)} :: 0 <= k < n ==> PtrOf(s, d, k) != 0 && !InUse(s0, PtrOf(s, d, k)))
    && (forall k {:trigger PtrOf(s, d, k)} :: k < 0 || k >= n ==> Vacant(s0, s, PtrOf(s, d, k)))
  }

  /** No block yet, or a new one without names. */
  ghost predicate Vacant(s0: Fs, s: Fs, p: int) { p == 0 || (!InUse(s0, p) && NoNames(s, p)) }

  lemma VacantThen(s0: Fs, s: Fs, s': Fs, p: int)
    requires Vacant(s0, s, p)
    requires p != 0 ==> forall j {:trigger FileAt(s', At(p, j))} :: SameFace(FileAt(s, At(p, j)), FileAt(s', At(p, j)))
    ensures Vacant(s0, s', p)
  {}

  ghost predicate RegPart(s0: Fs, s: Fs, d: Loc, src: Loc, n: int) {
    forall k {:trigger Cell(s, d, k)} :: 0 <= k < n ==> Cell(s, d, k) == Cell(s0, src, k)
  }

  /** A finished child: complete, and made of records that s0 did not have. */
  ghost predicate KidDone(s0: Fs, s: Fs, x: Loc, h: nat) {
    Whole(s, x, h) && forall y {:trigger Avoids(s, x, h, y)} :: Used(s0, y) ==> Avoids(s, x, h, y)
  }

  /** The first `c` records of the destination are named; they are the copies of the named ones among the
      source's first `q`, the rest of its blocks being empty. */
  ghost predicate DirPart(s0: Fs, s: Fs, d: Loc, src: Loc, n: int, q: int, h: nat, c: int, ok: bool) {
    && 0 <= c <= q && c <= n * FILE2BLK
    && (forall p {:trigger KidName(s, d, p)} :: 0 <= p < c ==> KidName(s, d, p) != "")
    && (forall p {:trigger KidName(s, d, p)} :: c <= p < n * FILE2BLK ==> KidName(s, d, p) == "")
    && (ok ==> KidsDone(s0, s, d, h, c) && Kids(s, d, h, c) == Kids(s0, src, h, q))
  }

  ghost predicate KidsDone(s0: Fs, s: Fs, d: Loc, h: nat, c: int) {
    forall p {:trigger KidLoc(s, d, p)} :: 0 <= p < c ==> KidDone(s0, s, KidLoc(s, d, p), h)
  }

  /** The first `c` children are named and away from `e`. */
  ghost predicate Apart(s: Fs, d: Loc, h: nat, c: int, e: Loc) {
    forall p {:trigger KidLoc(s, d, p)} :: 0 <= p < c ==>
      KidName(s, d, p) != "" && KidLoc(s, d, p) != e && Avoids(s, KidLoc(s, d, p), h, e)
  }

  ghost predicate Later(s0: Fs, s: Fs) {
    forall y {:trigger Used(s, y)} :: Used(s0, y) ==> Used(s, y)
  }

  /** Growth that leaves the destination's children's trees alone. */
  lemma KidKept(s0: Fs, s: Fs, s': Fs, o: Owner, d: Loc, h: nat, c: int, p: int, e: Loc)
    requires Inv(s, o) && Grow(s, s', e) && d != e && Used(s, d) && KidsDone(s0, s, d, h, c) && Later(s0, s)
    requires Apart(s, d, h, c, e) && 0 <= p < c
    ensures KidLoc(s', d, p) == KidLoc(s, d, p) && KidName(s', d, p) != "" && KidName(s, d, p) != ""
    ensures TreeOf(s', KidLoc(s, d, p), h) == TreeOf(s, KidLoc(s, d, p), h) && KidDone(s0, s', KidLoc(s, d, p), h)
  {
    var x := KidLoc(s, d, p);
    assert KidDone(s0, s, x, h) && KidName(s, d, p) != "" && x != e && Avoids(s, x, h, e);
    KidGrow(s, s', o, e, d, p);
    hide Inv, Grow, FileAt, PtrOf, TreeOf, Whole, Avoids, KidsDone, Apart;
    TreeGrow(s, s', o, e, x, h);
    forall y | Used(s0, y) ensures Avoids(s', x, h, y) {
      assert Used(s, y);
      AvoidsGrow(s, s', o, e, x, h, y);
    }
  }

  lemma ApartLess(s: Fs, d: Loc, h: nat, c: int, e: Loc)
    requires Apart(s, d, h, c, e)
    ensures Apart(s, d, h, c - 1, e)
  {
    forall p | 0 <= p < c - 1
      ensures KidName(s, d, p) != "" && KidLoc(s, d, p) != e && Avoids(s, KidLoc(s, d, p), h, e)
    {
      var x := KidLoc(s, d, p);
    }
  }

  lemma {:induction false} KidsKept(s0: Fs, s: Fs, s': Fs, o: Owner, d: Loc, h: nat, c: int, e: Loc)
    requires Inv(s, o) && Grow(s, s', e) && d != e && Used(s, d) && KidsDone(s0, s, d, h, c) && Later(s0, s)
    requires Apart(s, d, h, c, e)
    ensures Kids(s', d, h, c) == Kids(s, d, h, c) && KidsDone(s0, s', d, h, c)
    decreases c
  {
    hide Inv, Grow, FileAt, PtrOf, TreeOf, KidDone, Avoids, KidName, KidLoc;
    forall p | 0 <= p < c ensures KidDone(s0, s', KidLoc(s', d, p), h) { KidKept(s0, s, s', o, d, h, c, p, e); }
    if c > 0 {
      ApartLess(s, d, h, c, e);
      KidsKept(s0, s, s', o, d, h, c - 1, e);
      KidKept(s0, s, s', o, d, h, c, c - 1, e);
    }
  }

  lemma LaterGrow(s0: Fs, s: Fs, d: Loc)
    requires Grow(s0, s, d)
    ensures Later(s0, s)
  {
    forall y | Used(s0, y) ensures Used(s, y) { assert y.At? ==> InUse(s, y.blk); }
  }

  /** Filling a hole of source or destination. */
  lemma PartKept(s0: Fs, s: Fs, s': Fs, o: Owner, d: Loc, src: Loc, n: int, q: int, h: nat, c: int, ok: bool)
    requires Inv(s, o) && Copying(s0, s, d, src, n) && DirPart(s0, s, d, src, n, q, h, c, ok) && Grow(s, s', Null)
    ensures DirPart(s0, s', d, src, n, q, h, c, ok)
  {
    assert Used(s, d);
    forall p | 0 <= p < n * FILE2BLK
      ensures KidName(s', d, p) == KidName(s, d, p)
    {
      assert PtrOf(s, d, p / FILE2BLK) != 0;
      KidGrow(s, s', o, Null, d, p);
    }
    if ok {
      forall p | 0 <= p < c ensures Avoids(s, KidLoc(s, d, p), h, Null) { AvoidsNull(s, KidLoc(s, d, p), h); }
      LaterGrow(s0, s, d);
      assert Apart(s, d, h, c, Null) by {
        forall p | 0 <= p < c ensures KidName(s, d, p) != "" && KidLoc(s, d, p) != Null {}
      }
      KidsKept(s0, s, s', o, d, h, c, Null);
    }
  }

  /** A hole of source or destination filled, as the copy sees it. */
  lemma Fetching(s0: Fs, s: Fs, s': Fs, o: Owner, d: Loc, src: Loc, n: int, loc: Loc)
    requires Inv(s, o) && Copying(s0, s, d, src, n) && Filled(s, s', loc, n) && (loc == src || loc == d)
    ensures Grow(s0, s', d) && Grow(s, s', Null) && Live(s', d) && Live(s', src)
    ensures SameFace(FileAt(s0, src), FileAt(s', src)) && SameFace(FileAt(s0, src), FileAt(s', d))
    ensures InUse(s0, PtrOf(s', d, n)) ==> InUse(s, PtrOf(s', d, n))
    ensures loc == d && PtrOf(s, d, n) == 0 && PtrOf(s', d, n) != 0 ==>
              !InUse(s, PtrOf(s', d, n)) && NoNames(s', PtrOf(s', d, n))
  {
    FilledLive(s, s', loc, n, src);
    FilledLive(s, s', loc, n, d);
    assert SameHead(FileAt(s, src), FileAt(s', src)) && SameHead(FileAt(s, d), FileAt(s', d));
    if loc == d && PtrOf(s, d, n) == 0 && PtrOf(s', d, n) != 0 { ZeroNames(s', d, n); }
    hide Inv, FileAt, PtrOf, Cell, Live;
    FilledGrow(s, s', loc, n, Null);
    InvOwned(s, o);
    GrowThen(s0, s, s', o, d, Null);
    hide NoNames;
  }

  lemma VacantFilled(s0: Fs, s: Fs, s': Fs, loc: Loc, i: int, p: int)
    requires Vacant(s0, s, p) && Filled(s, s', loc, i)
    ensures Vacant(s0, s', p)
  {
    VacantThen(s0, s, s', p);
  }

  lemma RegFetched(s0: Fs, s: Fs, s': Fs, d: Loc, src: Loc, n: int, loc: Loc)
    requires Filled(s, s', loc, n) && FileAt(s, d).kind == Reg && RegPart(s0, s, d, src, n)
    ensures RegPart(s0, s', d, src, n)
  {
    hide FileAt, PtrOf, Cell;
    forall k | 0 <= k < n ensures Cell(s', d, k) == Cell(s0, src, k) { assert Cell(s, d, k) == Cell(s0, src, k); }
  }

  lemma FetchSrc(s0: Fs, s: Fs, s': Fs, o: Owner, d: Loc, src: Loc, n: int)
    requires Inv(s, o) && Copying(s0, s, d, src, n) && Filled(s, s', src, n)
    ensures Copying(s0, s', d, src, n) && Grow(s, s', Null)
    ensures FileAt(s0, src).kind == Reg && RegPart(s0, s, d, src, n) ==> RegPart(s0, s', d, src, n)
  {
    hide Inv, Grow, FileAt, PtrOf, Cell, Live, InUse, Vacant, NoNames, RegPart;
    Fetching(s0, s, s', o, d, src, n, src);
    forall k | 0 <= k < n ensures PtrOf(s', src, k) != 0 { assert PtrOf(s, src, k) != 0; }
    forall k ensures PtrOf(s', d, k) == PtrOf(s, d, k) {}
    forall k | k < 0 || k >= n ensures Vacant(s0, s', PtrOf(s', d, k)) {
      VacantFilled(s0, s, s', src, n, PtrOf(s, d, k));
    }
    if FileAt(s0, src).kind == Reg && RegPart(s0, s, d, src, n) { RegFetched(s0, s, s', d, src, n, src); }
  }

  lemma FetchDst(s0: Fs, s: Fs, s': Fs, o: Owner, d: Loc, src: Loc, n: int)
    requires Inv(s, o) && Copying(s0, s, d, src, n) && PtrOf(s, src, n) != 0
    requires Filled(s, s', d, n) && PtrOf(s', d, n) != 0
    ensures Copying(s0, s', d, src, n + 1) && Grow(s, s', Null) && NoNames(s', PtrOf(s', d, n))
    ensures FileAt(s0, src).kind == Reg && RegPart(s0, s, d, src, n) ==> RegPart(s0, s', d, src, n)
  {
    hide Inv, Grow, FileAt, PtrOf, Cell, Live, InUse, NoNames, RegPart;
    Fetching(s0, s, s', o, d, src, n, d);
    VacantFilled(s0, s, s', d, n, PtrOf(s, d, n));
    assert PtrOf(s, d, n) != 0 ==> PtrOf(s', d, n) == PtrOf(s, d, n);
    assert !InUse(s0, PtrOf(s', d, n)) && NoNames(s', PtrOf(s', d, n));
    hide Vacant;
    forall k | 0 <= k < n + 1 ensures PtrOf(s', src, k) != 0 { assert PtrOf(s, src, k) != 0; }
    forall k | k != n ensures PtrOf(s', d, k) == PtrOf(s, d, k) {}
    forall k | k < 0 || k > n ensures Vacant(s0, s', PtrOf(s', d, k)) { VacantFilled(s0, s, s', d, n, PtrOf(s, d, k)); }
    if FileAt(s0, src).kind == Reg && RegPart(s0, s, d, src, n) { RegFetched(s0, s, s', d, src, n, d); }
  }

  /** The destination's new block has no names yet. */
  lemma PartGrown(s0: Fs, s: Fs, d: Loc, src: Loc, n: int, q: int, h: nat, c: int, ok: bool)
    requires DirPart(s0, s, d, src, n, q, h, c, ok) && NoNames(s, PtrOf(s, d, n)) && n >= 0
    ensures DirPart(s0, s, d, src, n + 1, q, h, c, ok)
  {
    forall p | c <= p < (n + 1) * FILE2BLK ensures KidName(s, d, p) == "" {
      if p >= n * FILE2BLK { assert p / FILE2BLK == n; }
    }
  }

  // ---- one record of a directory ----

  /** A record of the source, as it was at the start. */
  lemma KidThen(s0: Fs, s: Fs, o0: Owner, d: Loc, src: Loc, n: int, h: nat, q: int)
    requires Inv(s0, o0) && Copying(s0, s, d, src, n) && FileAt(s0, src).kind == Dir && 0 <= q < NKids(s0, src)
    requires Whole(s0, src, h) && Avoids(s0, src, h, d)
    ensures KidName(s, src, q) == KidName(s0, src, q)
    ensures KidName(s, src, q) != "" ==>
              KidLoc(s, src, q) == KidLoc(s0, src, q) && Used(s0, KidLoc(s0, src, q)) && KidLoc(s0, src, q) != d
    ensures KidName(s, src, q) != "" ==>
              var x := KidLoc(s, src, q);
              Whole(s, x, h - 1) && Avoids(s, x, h - 1, d) && TreeOf(s, x, h - 1) == TreeOf(s0, x, h - 1)
  {
    assert KidLoc(s0, src, q) != d;
    KidGrow(s0, s, o0, d, src, q);
    if KidName(s, src, q) != "" {
      var x := KidLoc(s0, src, q);
      assert Whole(s0, x, h - 1) && Avoids(s0, x, h - 1, d);
      hide Grow, Inv, FileAt, PtrOf;
      assert Grow(s0, s, d);
      TreeGrow(s0, s, o0, d, x, h - 1);
      AvoidsGrow(s0, s, o0, d, x, h - 1, d);
    }
  }

  /** The next empty record of the destination is where dir_alloc_file will look first. */
  lemma NextEmpty(s0: Fs, s: Fs, o: Owner, d: Loc, src: Loc, n: int, q: int, h: nat, c: int, ok: bool)
    requires Inv(s, o) && Copying(s0, s, d, src, n) && DirPart(s0, s, d, src, n, q, h, c, ok) && q < n * FILE2BLK
    requires n * FILE2BLK <= NKids(s, d) && FileAt(s, d).kind == Dir
    ensures FirstEmpty(s, d, c) && EmptyKid(s, o, d, c)
  {
    assert PtrOf(s, d, c / FILE2BLK) != 0;
    KidPut(s, o, d, c);
    assert NoneBefore(s, d, c, "");
    forall k | 0 <= k <= c / FILE2BLK ensures PtrOf(s, d, k) != 0 {}
  }

  lemma KidPut(s: Fs, o: Owner, d: Loc, c: int)
    requires Inv(s, o) && FileAt(s, d).kind == Dir && c >= 0 && PtrOf(s, d, c / FILE2BLK) != 0
    ensures CanPut(s, KidLoc(s, d, c))
  {
    assert Fits(Dir, Cell(s, d, c / FILE2BLK));
    assert BlockOk(s.blocks[PtrOf(s, d, c / FILE2BLK)]);
  }

  /** What copy_deep promises: an equal tree at `d`, none of whose records existed before, unless the disk
      filled up; everything else grew at most by filled holes. */
  ghost predicate Copied(s0: Fs, s: Fs, d: Loc, src: Loc, h: nat, ok: bool) {
    && Grow(s0, s, d) && SameFace(FileAt(s0, src), FileAt(s, d))
    && (ok ==> TreeOf(s, d, h) == TreeOf(s0, src, h) && KidDone(s0, s, d, h))
    && (!ok ==> NoFree(s))
  }

  ghost predicate At1(s0: Fs, s: Fs, o: Owner, d: Loc, src: Loc, n: int, q: int, h: nat, c: int, ok: bool) {
    && Inv(s, o) && Copying(s0, s, d, src, n) && DirPart(s0, s, d, src, n, q, h, c, ok) && 0 <= q < n * FILE2BLK
    && FileAt(s, d).kind == Dir && KidName(s, src, q) != "" && KidLoc(s, src, q) != d
  }

  lemma TouchedCopying(s0: Fs, s: Fs, o: Owner, d: Loc, src: Loc, n: int, c: int)
    requires Inv(s, o) && Copying(s0, s, d, src, n) && EmptyKid(s, o, d, c) && c < n * FILE2BLK
    ensures var s1 := Touch(s, KidLoc(s, d, c), d);
            && Inv(s1, o) && Grow(s, s1, Null) && Copying(s0, s1, d, src, n) && KidLoc(s1, d, c) == KidLoc(s, d, c)
            && FileAt(s1, d).kind == FileAt(s, d).kind
  {
    var e := KidLoc(s, d, c);
    var s1 := Touch(s, e, d);
    assert PtrOf(s, d, c / FILE2BLK) != 0;
    assert e != d && e != src;
    TouchView(s, o, d, c);
    OwnedOf(s, o);
    hide Inv, FileAt, PtrOf, Cell, Live, InUse, Touch;
    assert FileAt(s1, d) == FileAt(s, d) && FileAt(s1, src) == FileAt(s, src);
    GrowThen(s0, s, s1, o, d, Null);
    hide Grow;
    TouchedKeeps(s0, s, s1, d, src, n);
  }

  lemma TouchedKeeps(s0: Fs, s: Fs, s1: Fs, d: Loc, src: Loc, n: int)
    requires Copying(s0, s, d, src, n) && Grow(s, s1, Null) && Grow(s0, s1, d)
    requires FileAt(s1, d) == FileAt(s, d) && FileAt(s1, src) == FileAt(s, src)
    requires forall x {:trigger FileAt(s1, x)} :: SameFace(FileAt(s, x), FileAt(s1, x))
    requires forall x, k {:trigger PtrOf(s1, x, k)} :: PtrOf(s1, x, k) == PtrOf(s, x, k)
    ensures Copying(s0, s1, d, src, n)
  {
    hide FileAt, PtrOf, Live, InUse, Vacant;
    GrowLive(s, s1, d);
    GrowLive(s, s1, src);
    hide Grow;
    forall k | k < 0 || k >= n ensures Vacant(s0, s1, PtrOf(s1, d, k)) {
      assert Vacant(s0, s, PtrOf(s, d, k));
      VacantThen(s0, s, s1, PtrOf(s, d, k));
    }
  }

  lemma TouchedPart(s0: Fs, s: Fs, o: Owner, d: Loc, src: Loc, n: int, q: int, h: nat, c: int, ok: bool)
    requires At1(s0, s, o, d, src, n, q, h, c, ok) && EmptyKid(s, o, d, c)
    ensures var s1 := Touch(s, KidLoc(s, d, c), d);
            && At1(s0, s1, o, d, src, n, q, h, c, ok) && Grow(s, s1, Null) && KidLoc(s1, d, c) == KidLoc(s, d, c)
            && KidLoc(s1, src, q) == KidLoc(s, src, q)
  {
    var s1 := Touch(s, KidLoc(s, d, c), d);
    assert PtrOf(s, src, q / FILE2BLK) != 0 && Used(s, src) && src != Null;
    TouchedCopying(s0, s, o, d, src, n, c);
    KidGrow(s, s1, o, Null, src, q);
    PartKept(s0, s, s1, o, d, src, n, q, h, c, ok);
    hide Inv, Grow, FileAt, PtrOf, Cell, Live, InUse, Touch, DirPart, Copying;
  }

  lemma GrowLive(s: Fs, s': Fs, x: Loc)
    requires Grow(s, s', Null) && Live(s, x)
    ensures Live(s', x)
  {}

  /** The next record's copy does not run into the source, or into the records copied before. */
  lemma ReadyKid(s0: Fs, s: Fs, o: Owner, d: Loc, src: Loc, n: int, q: int, h: nat, c: int, ok: bool)
    requires At1(s0, s, o, d, src, n, q, h, c, ok) && Avoids(s, KidLoc(s, src, q), h, d)
    ensures KidLoc(s, d, c) != KidLoc(s, src, q) && Avoids(s, KidLoc(s, src, q), h, KidLoc(s, d, c))
    ensures ok ==> Apart(s, d, h, c, KidLoc(s, d, c))
  {
    var e, x := KidLoc(s, d, c), KidLoc(s, src, q);
    assert PtrOf(s, src, q / FILE2BLK) != 0 && PtrOf(s, d, c / FILE2BLK) != 0;
    if e == x { SameCell(s, o, d, c / FILE2BLK, src, q / FILE2BLK); }
    AvoidsHeld(s, o, x, h, d, c / FILE2BLK, c % FILE2BLK);
    if ok {
      forall p | 0 <= p < c
        ensures KidName(s, d, p) != "" && KidLoc(s, d, p) != e && Avoids(s, KidLoc(s, d, p), h, e)
      { ApartKid(s0, s, o, d, src, n, q, h, c, p); }
    }
  }

  lemma ApartKid(s0: Fs, s: Fs, o: Owner, d: Loc, src: Loc, n: int, q: int, h: nat, c: int, p: int)
    requires At1(s0, s, o, d, src, n, q, h, c, true) && 0 <= p < c
    ensures KidName(s, d, p) != "" && KidLoc(s, d, p) != KidLoc(s, d, c)
    ensures Avoids(s, KidLoc(s, d, p), h, KidLoc(s, d, c))
  {
    var e, x := KidLoc(s, d, c), KidLoc(s, d, p);
    assert PtrOf(s, d, p / FILE2BLK) != 0 && PtrOf(s, d, c / FILE2BLK) != 0;
    assert KidDone(s0, s, x, h) && KidName(s, d, p) != "";
    assert Avoids(s, x, h, d) && x != d;
    if e == x { SameCell(s, o, d, c / FILE2BLK, d, p / FILE2BLK); }
    hide Inv, Grow, FileAt, PtrOf, Cell, DirPart, Copying, Avoids;
    AvoidsHeld(s, o, x, h, d, c / FILE2BLK, c % FILE2BLK);
  }

  /** The facts about one record's copy: from s1 to s2 the record `e` of the destination became `x`'s copy. */
  ghost predicate KidCopy(s0: Fs, s1: Fs, s2: Fs, o: Owner, d: Loc, src: Loc, n: int, q: int, h: nat, c: int, ok: bool,
                          ok': bool)
  {
    && At1(s0, s1, o, d, src, n, q, h, c, ok)
    && Copied(s1, s2, KidLoc(s1, d, c), KidLoc(s1, src, q), h, ok')
    && KidLoc(s1, d, c) != KidLoc(s1, src, q) && (ok ==> Apart(s1, d, h, c, KidLoc(s1, d, c)))
  }

  lemma AfterKidGrow(s0: Fs, s1: Fs, s2: Fs, o: Owner, d: Loc, src: Loc, n: int, q: int, h: nat, c: int, ok: bool,
                     ok': bool)
    requires KidCopy(s0, s1, s2, o, d, src, n, q, h, c, ok, ok')
    ensures Grow(s0, s2, d)
  {
    var e := KidLoc(s1, d, c);
    assert PtrOf(s1, d, c / FILE2BLK) != 0;
    assert !InUse(s0, e.blk);
    hide DirPart, Grow, FileAt, InUse, Live, Vacant;
    forall x, k | x != d && Used(s0, x) ensures PtrOf(s1, x, k) != e.blk {
      if PtrOf(s1, x, k) == e.blk { SameCell(s1, o, x, k, d, c / FILE2BLK); }
    }
    GrowThen(s0, s1, s2, o, d, e);
  }

  lemma AfterKidFacts(s0: Fs, s1: Fs, s2: Fs, o: Owner, d: Loc, src: Loc, n: int, q: int, h: nat, c: int, ok: bool,
                      ok': bool)
    requires KidCopy(s0, s1, s2, o, d, src, n, q, h, c, ok, ok')
    ensures var e := KidLoc(s1, d, c);
            && e != d && e != src && PtrOf(s1, src, q / FILE2BLK) != 0 && Used(s1, d) && Used(s1, src)
            && Live(s2, d) && Live(s2, src)
            && SameFace(FileAt(s1, d), FileAt(s2, d)) && SameFace(FileAt(s1, src), FileAt(s2, src))
  {
    assert PtrOf(s1, d, c / FILE2BLK) != 0;
  }

  lemma AfterKidCopying(s0: Fs, s1: Fs, s2: Fs, o: Owner, d: Loc, src: Loc, n: int, q: int, h: nat, c: int, ok: bool,
                        ok': bool)
    requires KidCopy(s0, s1, s2, o, d, src, n, q, h, c, ok, ok')
    ensures Copying(s0, s2, d, src, n)
    ensures forall p {:trigger KidLoc(s2, d, p)} :: 0 <= p < n * FILE2BLK ==> KidLoc(s2, d, p) == KidLoc(s1, d, p)
    ensures PtrOf(s2, src, q / FILE2BLK) == PtrOf(s1, src, q / FILE2BLK)
  {
    AfterKidFacts(s0, s1, s2, o, d, src, n, q, h, c, ok, ok');
    AfterKidGrow(s0, s1, s2, o, d, src, n, q, h, c, ok, ok');
    AfterKidPtrs(s0, s1, s2, o, d, src, n, q, h, c, ok, ok');
    hide Inv, Grow, PtrOf, DirPart, FileAt, InUse, Live, Vacant, KidName;
    forall p | 0 <= p < n * FILE2BLK ensures KidLoc(s2, d, p) == KidLoc(s1, d, p) {
      assert PtrOf(s2, d, p / FILE2BLK) == PtrOf(s1, d, p / FILE2BLK);
    }
    forall k | k < 0 || k >= n ensures Vacant(s0, s2, PtrOf(s2, d, k)) {
      AfterKidVacant(s0, s1, s2, o, d, src, n, q, h, c, ok, ok', k);
    }
  }

  lemma AfterKidPtrs(s0: Fs, s1: Fs, s2: Fs, o: Owner, d: Loc, src: Loc, n: int, q: int, h: nat, c: int, ok: bool,
                     ok': bool)
    requires KidCopy(s0, s1, s2, o, d, src, n, q, h, c, ok, ok')
    ensures forall k {:trigger PtrOf(s2, src, k)} :: 0 <= k < n ==> PtrOf(s2, src, k) == PtrOf(s1, src, k) != 0
    ensures forall k {:trigger PtrOf(s2, d, k)} :: 0 <= k < n ==> PtrOf(s2, d, k) == PtrOf(s1, d, k) != 0
    ensures PtrOf(s2, src, q / FILE2BLK) == PtrOf(s1, src, q / FILE2BLK)
  {
    var e := KidLoc(s1, d, c);
    AfterKidFacts(s0, s1, s2, o, d, src, n, q, h, c, ok, ok');
    hide Inv, Grow, PtrOf, DirPart, FileAt, InUse, Live, Vacant, KidName;
    forall k | 0 <= k < n
      ensures PtrOf(s2, src, k) == PtrOf(s1, src, k) != 0 && PtrOf(s2, d, k) == PtrOf(s1, d, k) != 0
    {
      assert PtrOf(s1, src, k) != 0 && PtrOf(s1, d, k) != 0;
      GrowPtrAt(s1, s2, e, src, k);
      GrowPtrAt(s1, s2, e, d, k);
    }
    GrowPtrAt(s1, s2, e, src, q / FILE2BLK);
  }

  lemma GrowPtrAt(s: Fs, s': Fs, e: Loc, x: Loc, k: int)
    requires Grow(s, s', e) && x != e && Used(s, x) && PtrOf(s, x, k) != 0
    ensures PtrOf(s', x, k) == PtrOf(s, x, k)
  {
    var z := PtrOf(s', x, k);
    assert GrowCell(s, s', x, k);
  }

  lemma AfterKidVacant(s0: Fs, s1: Fs, s2: Fs, o: Owner, d: Loc, src: Loc, n: int, q: int, h: nat, c: int, ok: bool,
                       ok': bool, k: int)
    requires KidCopy(s0, s1, s2, o, d, src, n, q, h, c, ok, ok') && (k < 0 || k >= n)
    ensures Vacant(s0, s2, PtrOf(s2, d, k))
  {
    var p := PtrOf(s1, d, k);
    var e := KidLoc(s1, d, c);
    assert PtrOf(s1, d, c / FILE2BLK) != 0 && e != d;
    assert Vacant(s0, s1, p);
    assert GrowCell(s1, s2, d, k) by { var z := PtrOf(s2, d, k); }
    assert InUse(s0, PtrOf(s2, d, k)) ==> InUse(s1, PtrOf(s2, d, k));
    if p != 0 {
      if p == e.blk { SameCell(s1, o, d, k, d, c / FILE2BLK); }
      assert InUse(s1, p);
      forall j ensures SameFace(FileAt(s1, At(p, j)), FileAt(s2, At(p, j))) {}
      VacantThen(s0, s1, s2, p);
    }
  }

  lemma AfterKidOld(s0: Fs, s1: Fs, s2: Fs, o: Owner, d: Loc, src: Loc, n: int, q: int, h: nat, c: int)
    requires KidCopy(s0, s1, s2, o, d, src, n, q, h, c, true, true)
    ensures KidsDone(s0, s2, d, h, c) && Kids(s2, d, h, c) == Kids(s0, src, h, q)
    ensures KidDone(s0, s2, KidLoc(s1, d, c), h)
  {
    var e, x := KidLoc(s1, d, c), KidLoc(s1, src, q);
    LaterGrow(s0, s1, d);
    assert Used(s1, d) && d != e by { assert PtrOf(s1, d, c / FILE2BLK) != 0; }
    assert KidDone(s0, s2, e, h) by {
      forall y | Used(s0, y) ensures Avoids(s2, e, h, y) { assert Used(s1, y); }
    }
    KidsKept(s0, s1, s2, o, d, h, c, e);
  }

  lemma AfterKidTrees(s0: Fs, s1: Fs, s2: Fs, o: Owner, d: Loc, src: Loc, n: int, q: int, h: nat, c: int)
    requires KidCopy(s0, s1, s2, o, d, src, n, q, h, c, true, true) && c >= 0 && q >= 0
    requires KidLoc(s0, src, q) == KidLoc(s1, src, q) && KidName(s0, src, q) != ""
    requires TreeOf(s1, KidLoc(s1, src, q), h) == TreeOf(s0, KidLoc(s1, src, q), h)
    requires KidLoc(s2, d, c) == KidLoc(s1, d, c) && KidName(s2, d, c) != ""
    ensures KidsDone(s0, s2, d, h, c + 1) && Kids(s2, d, h, c + 1) == Kids(s0, src, h, q + 1)
  {
    AfterKidOld(s0, s1, s2, o, d, src, n, q, h, c);
    assert TreeOf(s2, KidLoc(s1, d, c), h) == TreeOf(s1, KidLoc(s1, src, q), h);
    KidsStep(s2, d, h, c);
    KidsStep(s0, src, h, q);
    hide *;
    KidsDoneMore(s0, s2, d, h, c);
  }

  lemma KidsDoneMore(s0: Fs, s: Fs, d: Loc, h: nat, c: int)
    requires KidsDone(s0, s, d, h, c) && KidDone(s0, s, KidLoc(s, d, c), h)
    ensures KidsDone(s0, s, d, h, c + 1)
  {
    hide KidDone, KidLoc;
  }

  lemma KidsStep(s: Fs, d: Loc, h: nat, c: int)
    requires c >= 0
    ensures Kids(s, d, h, c + 1) == Kids(s, d, h, c) +
      if KidName(s, d, c) == "" then [] else [TreeOf(s, KidLoc(s, d, c), h)]
  {}

  lemma AfterKidPart(s0: Fs, s1: Fs, s2: Fs, o: Owner, d: Loc, src: Loc, n: int, q: int, h: nat, c: int, ok: bool,
                     ok': bool)
    requires KidCopy(s0, s1, s2, o, d, src, n, q, h, c, ok, ok')
    requires KidLoc(s0, src, q) == KidLoc(s1, src, q) && KidName(s0, src, q) == KidName(s1, src, q)
    requires TreeOf(s1, KidLoc(s1, src, q), h) == TreeOf(s0, KidLoc(s1, src, q), h)
    ensures DirPart(s0, s2, d, src, n, q + 1, h, c + 1, ok && ok')
  {
    var e, x := KidLoc(s1, d, c), KidLoc(s1, src, q);
    hide Inv, Grow, PtrOf, InUse, Live, Avoids, Whole, TreeOf, Copying, KidDone, Kids, KidLoc;
    AfterKidCopying(s0, s1, s2, o, d, src, n, q, h, c, ok, ok');
    assert c < n * FILE2BLK && KidLoc(s2, d, c) == e;
    assert KidName(s2, d, c) == KidName(s1, src, q);
    hide KidName, FileAt;
    forall p | 0 <= p < n * FILE2BLK && p != c ensures KidName(s2, d, p) == KidName(s1, d, p) {
      KidElse(s0, s1, s2, o, d, src, n, q, h, c, ok, ok', p);
    }
    if ok && ok' { AfterKidTrees(s0, s1, s2, o, d, src, n, q, h, c); }
  }

  lemma KidElse(s0: Fs, s1: Fs, s2: Fs, o: Owner, d: Loc, src: Loc, n: int, q: int, h: nat, c: int, ok: bool, ok': bool,
                p: int)
    requires KidCopy(s0, s1, s2, o, d, src, n, q, h, c, ok, ok') && 0 <= p < n * FILE2BLK && p != c
    requires KidLoc(s2, d, p) == KidLoc(s1, d, p)
    ensures KidName(s2, d, p) == KidName(s1, d, p)
  {
    var e, x := KidLoc(s1, d, c), KidLoc(s1, d, p);
    assert PtrOf(s1, d, c / FILE2BLK) != 0 && PtrOf(s1, d, p / FILE2BLK) != 0;
    if x == e { SameCell(s1, o, d, c / FILE2BLK, d, p / FILE2BLK); }
    assert SameFace(FileAt(s1, x), FileAt(s2, x));
  }

  // ---- one block of a regular file ----

  lemma DataGrow(s: Fs, o: Owner, d: Loc, i: int, b: Block)
    requires Inv(s, o) && PtrOf(s, d, i) != 0 && FileAt(s, d).kind == Reg && Fits(Reg, b) && BlockOk(b)
    ensures InUse(s, PtrOf(s, d, i)) && Grow(s, PutBlk(s, PtrOf(s, d, i), b), d)
  {
    var s' := PutBlk(s, PtrOf(s, d, i), b);
    PutDataInv(s, o, d, i, b);
    DataPtrs(s, o, d, i, b);
    LeakSame(s, s', 0);
    assert Fits(FileAt(s, d).kind, Cell(s, d, i));
    forall x | Live(s, x) ensures Live(s', x) {}
    forall b ensures InUse(s, b) <==> InUse(s', b) {}
    hide Inv, FileAt, PtrOf, Cell, PutBlk, InUse, Live;
    forall x, k | x != d ensures GrowCell(s, s', x, k) {
      assert PtrOf(s', x, k) == PtrOf(s, x, k) && Cell(s', x, k) == Cell(s, x, k);
    }
  }

  lemma DataPtrs(s: Fs, o: Owner, d: Loc, i: int, b: Block)
    requires Inv(s, o) && PtrOf(s, d, i) != 0 && FileAt(s, d).kind == Reg && Fits(Reg, b)
    ensures InUse(s, PtrOf(s, d, i)) && SamePtrs(s, PutBlk(s, PtrOf(s, d, i), b))
  {
    assert Fits(FileAt(s, d).kind, Cell(s, d, i));
    PutDataView(s, PtrOf(s, d, i), b);
  }

  lemma DataReady(s0: Fs, s: Fs, o: Owner, d: Loc, src: Loc, n: int)
    requires Inv(s, o) && Copying(s0, s, d, src, n + 1) && FileAt(s0, src).kind == Reg && n >= 0
    ensures PtrOf(s, d, n) != 0 && InUse(s, PtrOf(s, d, n)) && PtrOf(s, src, n) != 0 && InUse(s, PtrOf(s, src, n))
    ensures s.blocks[PtrOf(s, src, n)] == Cell(s, src, n) == Cell(s0, src, n)
    ensures Fits(Reg, Cell(s, src, n)) && BlockOk(Cell(s, src, n)) && FileAt(s, d).kind == Reg
  {
    assert PtrOf(s, d, n) != 0 && PtrOf(s, src, n) != 0;
    assert Fits(FileAt(s, src).kind, Cell(s, src, n));
    assert GrowCell(s0, s, src, n) by { var z := PtrOf(s, src, n); }
  }

  lemma DataCopied(s0: Fs, s: Fs, s': Fs, o: Owner, d: Loc, src: Loc, n: int)
    requires Owned(s, o) && Copying(s0, s, d, src, n + 1) && RegPart(s0, s, d, src, n) && n >= 0
    requires Grow(s, s', d) && forall x {:trigger FileAt(s', x)} :: FileAt(s', x) == FileAt(s, x)
    requires forall x, k {:trigger PtrOf(s', x, k)} :: PtrOf(s', x, k) == PtrOf(s, x, k)
    requires forall x, k {:trigger Cell(s', x, k)} ::
               Cell(s', x, k) == if x == d && k == n then Cell(s0, src, n) else Cell(s, x, k)
    ensures Copying(s0, s', d, src, n + 1) && RegPart(s0, s', d, src, n + 1)
  {
    GrowThen(s0, s, s', o, d, d);
    RegMore(s0, s, s', d, src, n);
    hide Owned, Grow, PtrOf, FileAt, InUse, Cell, Vacant, Live, RegPart;
    GrowLiveAt(s, s', d, d);
    GrowLiveAt(s, s', d, src);
    forall k | k < 0 || k >= n + 1 ensures Vacant(s0, s', PtrOf(s', d, k)) { VacantThen(s0, s, s', PtrOf(s, d, k)); }
    forall k ensures PtrOf(s', src, k) == PtrOf(s, src, k) && PtrOf(s', d, k) == PtrOf(s, d, k) {}
  }

  lemma RegMore(s0: Fs, s: Fs, s': Fs, d: Loc, src: Loc, n: int)
    requires RegPart(s0, s, d, src, n) && n >= 0
    requires forall x, k {:trigger Cell(s', x, k)} ::
               Cell(s', x, k) == if x == d && k == n then Cell(s0, src, n) else Cell(s, x, k)
    ensures RegPart(s0, s', d, src, n + 1)
  {
    hide Cell;
    forall k | 0 <= k < n + 1 ensures Cell(s', d, k) == Cell(s0, src, k) {
      assert k < n ==> Cell(s, d, k) == Cell(s0, src, k);
    }
  }

  lemma InvOwned(s: Fs, o: Owner)
    requires Inv(s, o)
    ensures Owned(s, o)
  {}

  lemma GrowLiveAt(s: Fs, s': Fs, d: Loc, x: Loc)
    requires Grow(s, s', d) && Live(s, x)
    ensures Live(s', x)
  {}

  // ---- the end ----

  lemma {:induction false} KidsTail(s: Fs, d: Loc, h: nat, c: int, n: int)
    requires 0 <= c <= n && forall p {:trigger KidName(s, d, p)} :: c <= p < n ==> KidName(s, d, p) == ""
    ensures Kids(s, d, h, n) == Kids(s, d, h, c)
    decreases n
  {
    hide *;
    if c < n {
      KidsTail(s, d, h, c, n - 1);
      KidsStep(s, d, h, n - 1);
    }
  }

  lemma RegFinished(s0: Fs, s: Fs, d: Loc, src: Loc, h: nat)
    requires FileAt(s0, src).kind == Reg && Copying(s0, s, d, src, NBlock(FileAt(s0, src).size)) && Whole(s0, src, h)
    requires RegPart(s0, s, d, src, NBlock(FileAt(s0, src).size))
    ensures Copied(s0, s, d, src, h, true)
  {
    var n := NBlock(FileAt(s0, src).size);
    assert Cells(s, d, n) == Cells(s0, src, n) by {
      forall i | 0 <= i < n ensures Cells(s, d, n)[i] == Cells(s0, src, n)[i] {
        assert Cell(s, d, i) == Cell(s0, src, i);
      }
    }
    hide Grow, FileAt, PtrOf, Cell;
  }

  lemma DirFinished(s0: Fs, s: Fs, d: Loc, src: Loc, h: nat, c: int, ok: bool)
    requires var n := NBlock(FileAt(s0, src).size);
             && FileAt(s0, src).kind == Dir && Copying(s0, s, d, src, n) && Whole(s0, src, h)
             && DirPart(s0, s, d, src, n, n * FILE2BLK, h - 1, c, ok)
    requires !ok ==> NoFree(s)
    ensures Copied(s0, s, d, src, h, ok)
  {
    hide Inv, Grow, PtrOf, Cell, KidLoc, Kids, Avoids, Whole, KidDone, FileAt, TreeOf, Vacant, InUse, KidName, NoFree;
    hide NKids, NoNames, Live, Used, KidsDone, NBlock;
    var n := NBlock(FileAt(s0, src).size);
    WholeCount(s0, s, d, src, h);
    if ok {
      KidsTail(s, d, h - 1, c, n * FILE2BLK);
      DirDone(s0, s, d, src, h, c);
      DirTree(s0, s, d, src, h);
    }
  }

  lemma DirDone(s0: Fs, s: Fs, d: Loc, src: Loc, h: nat, c: int)
    requires var n := NBlock(FileAt(s0, src).size);
             && h > 0 && Copying(s0, s, d, src, n) && NKids(s, d) == n * FILE2BLK && n <= NINDIRECT
             && DirPart(s0, s, d, src, n, n * FILE2BLK, h - 1, c, true)
    ensures KidDone(s0, s, d, h)
  {
    var n := NBlock(FileAt(s0, src).size);
    hide Grow, PtrOf, KidLoc, Kids, Avoids, Whole, FileAt, Vacant, InUse, KidName, NKids;
    forall q | 0 <= q < n * FILE2BLK && KidName(s, d, q) != "" ensures KidDone(s0, s, KidLoc(s, d, q), h - 1) {}
    DirWhole(s0, s, d, h);
    forall y | Used(s0, y) ensures Avoids(s, d, h, y) { DirFresh(s0, s, d, src, h, c, y); }
  }

  lemma WholeCount(s0: Fs, s: Fs, d: Loc, src: Loc, h: nat)
    requires FileAt(s0, src).kind == Dir && Whole(s0, src, h) && SameFace(FileAt(s0, src), FileAt(s, d))
    ensures var n := NBlock(FileAt(s0, src).size);
      NKids(s0, src) == n * FILE2BLK && NKids(s, d) == n * FILE2BLK && h > 0 && n <= NINDIRECT
  {
    hide FileAt, KidLoc, KidName;
  }

  lemma DirTree(s0: Fs, s: Fs, d: Loc, src: Loc, h: nat)
    requires h > 0 && FileAt(s0, src).kind == Dir && SameFace(FileAt(s0, src), FileAt(s, d))
    requires Kids(s, d, h - 1, NKids(s, d)) == Kids(s0, src, h - 1, NKids(s0, src))
    ensures TreeOf(s, d, h) == TreeOf(s0, src, h)
  {
    hide Kids, FileAt;
  }

  lemma DirWhole(s0: Fs, s: Fs, d: Loc, h: nat)
    requires h > 0 && NBlock(FileAt(s, d).size) <= NINDIRECT
    requires forall q {:trigger KidLoc(s, d, q)} ::
               0 <= q < NKids(s, d) && KidName(s, d, q) != "" ==> KidDone(s0, s, KidLoc(s, d, q), h - 1)
    ensures Whole(s, d, h)
  {}

  lemma DirFresh(s0: Fs, s: Fs, d: Loc, src: Loc, h: nat, c: int, y: Loc)
    requires var n := NBlock(FileAt(s0, src).size);
             && h > 0 && Copying(s0, s, d, src, n) && NKids(s, d) == n * FILE2BLK
             && DirPart(s0, s, d, src, n, n * FILE2BLK, h - 1, c, true)
    requires Used(s0, y)
    ensures Avoids(s, d, h, y)
  {
    forall q | 0 <= q < NKids(s, d)
      ensures KidLoc(s, d, q) != y && (KidName(s, d, q) != "" ==> Avoids(s, KidLoc(s, d, q), h - 1, y))
    {
      assert PtrOf(s, d, q / FILE2BLK) != 0;
      if KidName(s, d, q) != "" { assert KidDone(s0, s, KidLoc(s, d, q), h - 1); }
    }
  }

  // ---- the operation ----

  /** memcpy of the i-th block. */
  method CopyData(m: Server, d: Loc, src: Loc, ghost i: int, b: int, b1: int, ghost s0: Fs)
    requires m.Valid() && Copying(s0, m.V(), d, src, i + 1) && RegPart(s0, m.V(), d, src, i) && i >= 0
    requires FileAt(s0, src).kind == Reg && b1 == PtrOf(m.V(), d, i) && b == PtrOf(m.V(), src, i)
    requires b in m.cache && b1 in m.cache && m.Handle(d) && m.Handle(src)
    modifies m
    ensures m.Valid() && m.Handle(d) && m.Handle(src) && m.cache.Keys == old(m.cache.Keys)
    ensures Copying(s0, m.V(), d, src, i + 1) && RegPart(s0, m.V(), d, src, i + 1) && m.free == old(m.free)
  {
    ghost var s := m.V();
    DataReady(s0, s, m.owner, d, src, i);
    PutDataInv(s, m.owner, d, i, Cell(s, src, i));
    DataGrow(s, m.owner, d, i, Cell(s, src, i));
    InvOwned(s, m.owner);
    hide Inv, Grow, FileAt, Ptr, PtrOf, Cell, RegPart, PutBlk, Live;
    m.CopyBlock(b1, b);
    assert m.V() == PutBlk(s, b1, Cell(s, src, i));
    DataCopied(s0, s, m.V(), m.owner, d, src, i);
  }

  lemma NoFreeGrow(s: Fs, s': Fs, o: Owner, o': Owner, d: Loc)
    requires NoFree(s) && Grow(s, s', d) && Inv(s, o) && Inv(s', o')
    ensures NoFree(s')
  {
    forall b | 0 <= b < |s'.free| ensures !s'.free[b] {
      if b > 0 { assert InUse(s, b); assert InUse(s', b); }
    }
  }

  lemma KidSkipped(s0: Fs, s: Fs, d: Loc, src: Loc, n: int, q: int, h: nat, c: int, ok: bool)
    requires DirPart(s0, s, d, src, n, q, h, c, ok) && KidName(s0, src, q) == ""
    ensures DirPart(s0, s, d, src, n, q + 1, h, c, ok)
  {
    KidsStep(s0, src, h, q);
  }

  /** The source directory at its start, and one of its records. */
  ghost predicate SourceDir(s0: Fs, o0: Owner, d: Loc, src: Loc, h: nat, q: int) {
    && Inv(s0, o0) && h > 0 && Whole(s0, src, h) && Avoids(s0, src, h, d)
    && FileAt(s0, src).kind == Dir && FileAt(s0, src).name != "" && 0 <= q < NKids(s0, src)
  }

  /** The record `x` of the source is what it was at the start. */
  ghost predicate SameKid(s0: Fs, s: Fs, d: Loc, src: Loc, x: Loc, h: nat, q: int) {
    && KidLoc(s, src, q) == x == KidLoc(s0, src, q) && KidName(s0, src, q) == KidName(s, src, q) != ""
    && Whole(s, x, h) && Avoids(s, x, h, d) && TreeOf(s, x, h) == TreeOf(s0, x, h)
  }

  lemma SameKidOf(s0: Fs, s: Fs, o0: Owner, o: Owner, d: Loc, src: Loc, n: int, q: int, h: nat, c: int, ok: bool)
    requires SourceDir(s0, o0, d, src, h, q) && At1(s0, s, o, d, src, n, q, h - 1, c, ok)
    ensures SameKid(s0, s, d, src, KidLoc(s, src, q), h - 1, q)
  {
    KidThen(s0, s, o0, d, src, n, h, q);
  }

  lemma At1Owner(s0: Fs, s: Fs, o: Owner, o': Owner, d: Loc, src: Loc, n: int, q: int, h: nat, c: int, ok: bool)
    requires At1(s0, s, o, d, src, n, q, h, c, ok) && Inv(s, o')
    ensures At1(s0, s, o', d, src, n, q, h, c, ok)
  {}

  /** The source's record is live, and the one found for it is a clean destination. */
  lemma KidClean(s0: Fs, s: Fs, s1: Fs, o: Owner, d: Loc, src: Loc, n: int, q: int, h: nat, c: int, ok: bool, e: Loc)
    requires At1(s0, s1, o, d, src, n, q, h, c, ok) && NewRecord(s, s1, d, e, c) && Live(s1, e)
    requires e != KidLoc(s1, src, q)
    ensures Clean(s1, e, KidLoc(s1, src, q)) && Live(s1, KidLoc(s1, src, q))
  {
    KidLive(s1, o, KidLoc(s1, src, q));
    EmptyClean(s1, o, e, KidLoc(s1, src, q), s, d, c);
  }

  lemma KidLive(s: Fs, o: Owner, x: Loc)
    requires Inv(s, o) && FileAt(s, x).name != "" && x.At?
    ensures Live(s, x)
  {
    if InUse(s, x.blk) { assert BlockOk(s.blocks[x.blk]); }
  }

  lemma EmptyClean(s: Fs, o: Owner, e: Loc, x: Loc, s0: Fs, d: Loc, c: int)
    requires Inv(s, o) && Live(s, e) && NewRecord(s0, s, d, e, c) && e != x
    ensures Clean(s, e, x)
  {
    assert FileAt(s, e).name == "" && e != Root;
  }

  /** An empty record `e` found for the copy of `x`, the source's q-th. */
  ghost predicate Prepared(s0: Fs, s: Fs, o: Owner, d: Loc, src: Loc, x: Loc, n: int, q: int, h: nat, c: int, ok: bool,
                           e: Loc)
  {
    && At1(s0, s, o, d, src, n, q, h, c, ok) && SameKid(s0, s, d, src, x, h, q)
    && e == KidLoc(s, d, c) && x == KidLoc(s, src, q) && Clean(s, e, x) && Live(s, x)
    && Avoids(s, x, h, e) && (ok ==> Apart(s, d, h, c, e))
  }

  lemma PreparedNow(s0: Fs, s: Fs, s1: Fs, o0: Owner, o: Owner, o1: Owner,
                    d: Loc, src: Loc, n: int, q: int, h: nat, c: int, ok: bool, e: Loc)
    requires SourceDir(s0, o0, d, src, h, q) && At1(s0, s, o, d, src, n, q, h - 1, c, ok) && EmptyKid(s, o, d, c)
    requires CanPut(s, e) && s1 == Touch(s, e, d) && NewRecord(s, s1, d, e, c) && Inv(s1, o1) && Live(s1, e)
    ensures Prepared(s0, s1, o1, d, src, KidLoc(s, src, q), n, q, h - 1, c, ok, e) && Grow(s, s1, Null)
    ensures s1.free == s.free
  {
    hide Inv, Grow, PtrOf, Live, CanPut, Touch, NewRecord, EmptyKid, KidName, KidLoc, Copying, DirPart, TreeOf;
    hide Clean, Apart, At1, FileAt, Whole, Avoids, SameKid, InUse, Named, NKids;
    TouchedFree(s, s1, e, d, c);
    TouchedWhere(s, s1, o, d, e, c);
    TouchedPart(s0, s, o, d, src, n, q, h - 1, c, ok);
    At1Owner(s0, s1, o, o1, d, src, n, q, h - 1, c, ok);
    SameKidOf(s0, s1, o0, o1, d, src, n, q, h, c, ok);
    ReadyKid(s0, s1, o1, d, src, n, q, h - 1, c, ok);
    KidClean(s0, s, s1, o1, d, src, n, q, h - 1, c, ok, e);
  }

  lemma TouchedFree(s: Fs, s1: Fs, e: Loc, d: Loc, c: int)
    requires CanPut(s, e) && s1 == Touch(s, e, d) && NewRecord(s, s1, d, e, c)
    ensures s1.free == s.free && e == KidLoc(s1, d, c)
  {}

  /** dir_alloc_file for one named record. */
  method PrepareRecord(m: Server, d: Loc, src: Loc, x: Loc, ghost n: int, ghost q: int,
                       ghost s0: Fs, ghost o0: Owner, ghost h: nat, ghost c: int, ok: bool)
    returns (e: Loc)
    requires m.Valid() && m.Handle(d) && m.Handle(src) && x == KidLoc(m.V(), src, q)
    requires SourceDir(s0, o0, d, src, h, q) && n * FILE2BLK <= NKids(m.V(), d)
    requires At1(s0, m.V(), m.owner, d, src, n, q, h - 1, c, ok)
    modifies m
    ensures m.Valid() && m.Handle(e) && old(m.cache.Keys) <= m.cache.Keys
    ensures Prepared(s0, m.V(), m.owner, d, src, x, n, q, h - 1, c, ok, e) && Grow(old(m.V()), m.V(), Null)
    ensures m.free == old(m.free)
  {
    hide Inv, Grow, FileAt, Ptr, PtrOf, Cell, Live, CanPut, Touch, NewRecord, FirstEmpty, EmptyKid, KidName, KidLoc;
    hide NoFree;
    hide Copying, DirPart, SourceDir, At1, NKids, Prepared, Named;
    ghost var s, o := m.V(), m.owner;
    ghost var c1;
    var r;
    NextFound(m, s0, s, o0, d, src, n, q, h, c, ok);
    r, e, c1 := DirAllocFile(m, d);
    PreparedNow(s0, s, m.V(), o0, o, m.owner, d, src, n, q, h, c, ok, e);
  }

  lemma NextFound(m: Server, s0: Fs, s: Fs, o0: Owner, d: Loc, src: Loc, n: int, q: int, h: nat, c: int, ok: bool)
    requires SourceDir(s0, o0, d, src, h, q) && At1(s0, s, m.owner, d, src, n, q, h - 1, c, ok)
    requires m.Valid() && s == m.V() && m.Handle(d) && n * FILE2BLK <= NKids(s, d)
    ensures DirHandle(m, d) && FirstEmpty(s, d, c) && EmptyKid(s, m.owner, d, c)
  {
    hide Inv, Copying, DirPart, FirstEmpty, EmptyKid, NKids, Named, Live, FileAt, Whole, Avoids, KidLoc, KidName;
    NamedDir(s0, s, m.owner, d, src, n, q, h - 1, c, ok);
    NextEmpty(s0, s, m.owner, d, src, n, q, h - 1, c, ok);
  }

  /** One named record. */
  method CopyRecord(m: Server, d: Loc, src: Loc, x: Loc, ghost n: int, ghost q: int,
                    ghost s0: Fs, ghost o0: Owner, ghost h: nat, ghost c: int, ok: bool)
    returns (ok': bool)
    requires m.Valid() && m.Handle(d) && m.Handle(src) && x == KidLoc(m.V(), src, q) && x.blk in m.cache
    requires h > 0 && SourceDir(s0, o0, d, src, h, q) && n * FILE2BLK <= NKids(m.V(), d)
    requires At1(s0, m.V(), m.owner, d, src, n, q, h - 1, c, ok) && (!ok ==> NoFree(m.V()))
    modifies m
    ensures m.Valid() && m.Handle(d) && m.Handle(src) && old(m.cache.Keys) <= m.cache.Keys
    ensures Copying(s0, m.V(), d, src, n) && DirPart(s0, m.V(), d, src, n, q + 1, h - 1, c + 1, ok')
    ensures PtrOf(m.V(), src, q / FILE2BLK) == PtrOf(old(m.V()), src, q / FILE2BLK)
    ensures !ok' ==> NoFree(m.V())
    ensures FreeCount(m.free) >= FreeCount(old(m.free)) - Cost(TreeOf(s0, x, h - 1))
    decreases h, 0
  {
    ghost var s, o := m.V(), m.owner;
    hide Server.CacheOk;
    hide Inv, Grow, FileAt, Ptr, PtrOf, Cell, Live, CanPut, KidName, KidLoc, NoFree;
    hide Copying, DirPart, Copied, TreeOf, Clean, Apart, SourceDir, At1, NKids, FreeCount, Cost, Whole, Avoids, InUse;
    var e := PrepareRecord(m, d, src, x, n, q, s0, o0, h, c, ok);
    ghost var s1, o1 := m.V(), m.owner;
    var okKid := CopyDeep(m, e, x, h - 1);
    ok' := ok && okKid;
    RecordDone(s0, s, s1, m.V(), o, o1, m.owner, d, src, n, q, h - 1, c, ok, okKid);
  }

  lemma TouchedWhere(s: Fs, s1: Fs, o: Owner, d: Loc, e: Loc, c: int)
    requires CanPut(s, e) && s1 == Touch(s, e, d) && e == KidLoc(s1, d, c) && EmptyKid(s, o, d, c)
    ensures e == KidLoc(s, d, c)
  {
  }

  lemma RecordDone(s0: Fs, s: Fs, s1: Fs, s2: Fs, o: Owner, o1: Owner, o2: Owner,
                   d: Loc, src: Loc, n: int, q: int, h: nat, c: int, ok: bool, okKid: bool)
    requires Inv(s, o) && Grow(s, s1, Null) && KidCopy(s0, s1, s2, o1, d, src, n, q, h, c, ok, okKid) && Inv(s2, o2)
    requires SameKid(s0, s1, d, src, KidLoc(s1, src, q), h, q) && KidLoc(s1, src, q) == KidLoc(s, src, q)
    requires !ok ==> NoFree(s)
    ensures Copying(s0, s2, d, src, n) && DirPart(s0, s2, d, src, n, q + 1, h, c + 1, ok && okKid)
    ensures PtrOf(s2, src, q / FILE2BLK) == PtrOf(s, src, q / FILE2BLK)
    ensures !(ok && okKid) ==> NoFree(s2)
    ensures Live(s2, d) && Live(s2, src)
  {
    AfterKidCopying(s0, s1, s2, o1, d, src, n, q, h, c, ok, okKid);
    AfterKidPart(s0, s1, s2, o1, d, src, n, q, h, c, ok, okKid);
    CopyLive(s0, s2, d, src, n);
    if !ok {
      NoFreeGrow(s, s1, o, o1, Null);
      NoFreeGrow(s1, s2, o1, o2, KidLoc(s1, d, c));
    }
  }

  lemma CopyLive(s0: Fs, s: Fs, d: Loc, src: Loc, n: int)
    requires Copying(s0, s, d, src, n)
    ensures Live(s, d) && Live(s, src) && d != src
  {}

  lemma NamedDir(s0: Fs, s: Fs, o: Owner, d: Loc, src: Loc, n: int, q: int, h: nat, c: int, ok: bool)
    requires At1(s0, s, o, d, src, n, q, h, c, ok) && FileAt(s0, src).name != ""
    ensures Named(s, d)
  {}

  // ---- one block, and the whole ----

  /** After `n` blocks. */
  ghost predicate Progress(s0: Fs, s: Fs, d: Loc, src: Loc, n: int, h: nat, c: int, ok: bool) {
    && Copying(s0, s, d, src, n) && (!ok ==> NoFree(s))
    && if FileAt(s0, src).kind == Reg then RegPart(s0, s, d, src, n) && ok
       else h > 0 && DirPart(s0, s, d, src, n, n * FILE2BLK, h - 1, c, ok)
  }

  /** The source of a copy, at its start. */
  ghost predicate Source(s0: Fs, o0: Owner, d: Loc, src: Loc, h: nat) {
    Inv(s0, o0) && Whole(s0, src, h) && Avoids(s0, src, h, d) && FileAt(s0, src).name != ""
  }

  /** What the copies of the records in a directory's first `n` blocks may take. */
  ghost function SpentOn(s0: Fs, src: Loc, h: nat, n: int): int {
    if FileAt(s0, src).kind == Dir && h > 0 then CostAll(Kids(s0, src, h - 1, n * FILE2BLK)) else 0
  }

  /** Within the i-th block of a directory, `j` records done. */
  ghost predicate RecState(s0: Fs, s: Fs, d: Loc, src: Loc, i: int, j: int, b: int, h: nat, c: int, ok: bool) {
    && FileAt(s0, src).kind == Dir && h > 0 && 0 <= i < NBlock(FileAt(s0, src).size) && b == PtrOf(s, src, i)
    && Copying(s0, s, d, src, i + 1) && DirPart(s0, s, d, src, i + 1, i * FILE2BLK + j, h - 1, c, ok)
    && (!ok ==> NoFree(s))
  }

  /** What the first `j` records of the i-th block, and those before, may take. */
  ghost function SpentAt(s0: Fs, src: Loc, h: nat, i: int, j: int): int
    requires h > 0
  { CostAll(Kids(s0, src, h - 1, i * FILE2BLK + j)) }

  /** The records of one directory block. */
  method CopyRecords(m: Server, d: Loc, src: Loc, i: int, b: int,
                     ghost s0: Fs, ghost o0: Owner, ghost h: nat, ghost c0: int, ok0: bool)
    returns (ghost c: int, ok: bool)
    requires m.Valid() && m.Handle(d) && m.Handle(src) && Source(s0, o0, d, src, h) && h > 0
    requires RecState(s0, m.V(), d, src, i, 0, b, h, c0, ok0) && b in m.cache
    modifies m
    ensures m.Valid() && m.Handle(d) && m.Handle(src) && old(m.cache.Keys) <= m.cache.Keys
    ensures RecState(s0, m.V(), d, src, i, FILE2BLK, b, h, c, ok)
    ensures FreeCount(m.free) - SpentAt(s0, src, h, i, 0) >= FreeCount(old(m.free)) - SpentAt(s0, src, h, i, FILE2BLK)
    decreases h, 1
  {
    hide Inv, Live, Source, SourceDir, RecState, At1, KidLoc, KidName, SpentAt, NoFree, Cost, TreeOf, NKids, FileAt;
    hide Copying, DirPart, PtrOf, NBlock, FreeCount, Server.CacheOk;
    c, ok := c0, ok0;
    var j := 0;
    while j < FILE2BLK
      invariant 0 <= j <= FILE2BLK && m.Valid() && m.Handle(d) && m.Handle(src) && old(m.cache.Keys) <= m.cache.Keys
      invariant b in m.cache && RecState(s0, m.V(), d, src, i, j, b, h, c, ok)
      invariant FreeCount(m.free) - SpentAt(s0, src, h, i, 0) >= FreeCount(old(m.free)) - SpentAt(s0, src, h, i, j)
    {
      ghost var s1 := m.V();
      RecordHere(m, s0, o0, d, src, i, j, b, h, c, ok);
      RecordCost(s0, s1, o0, m.owner, d, src, At(b, j), i, j, h, c, ok);
      if m.Get(At(b, j)).name != "" {
        ok := CopyRecord(m, d, src, At(b, j), i + 1, i * FILE2BLK + j, s0, o0, h, c, ok);
        RecordCopied(s0, s1, m.V(), d, src, i, j, b, h, c, ok);
        c := c + 1;
      } else {
        RecordSkipped(s0, s1, d, src, i, j, b, h, c, ok);
      }
      j := j + 1;
    }
  }

  lemma RecordCopied(s0: Fs, s: Fs, s': Fs, d: Loc, src: Loc, i: int, j: int, b: int, h: nat, c: int, ok': bool)
    requires h > 0 && FileAt(s0, src).kind == Dir && 0 <= i < NBlock(FileAt(s0, src).size) && b == PtrOf(s, src, i)
    requires var q := i * FILE2BLK + j;
             && 0 <= j < FILE2BLK && Copying(s0, s', d, src, i + 1)
             && DirPart(s0, s', d, src, i + 1, q + 1, h - 1, c + 1, ok')
             && PtrOf(s', src, q / FILE2BLK) == PtrOf(s, src, q / FILE2BLK)
    requires !ok' ==> NoFree(s')
    ensures RecState(s0, s', d, src, i, j + 1, b, h, c + 1, ok')
  {
    hide FileAt, PtrOf, Copying, DirPart, NoFree;
    assert (i * FILE2BLK + j) / FILE2BLK == i;
    assert i * FILE2BLK + j + 1 == i * FILE2BLK + (j + 1);
  }

  lemma RecordSkipped(s0: Fs, s: Fs, d: Loc, src: Loc, i: int, j: int, b: int, h: nat, c: int, ok: bool)
    requires RecState(s0, s, d, src, i, j, b, h, c, ok) && KidName(s0, src, i * FILE2BLK + j) == ""
    ensures RecState(s0, s, d, src, i, j + 1, b, h, c, ok)
  {
    hide FileAt, PtrOf, Copying, DirPart, NoFree, KidName;
    KidSkipped(s0, s, d, src, i + 1, i * FILE2BLK + j, h - 1, c, ok);
    assert i * FILE2BLK + j + 1 == i * FILE2BLK + (j + 1);
  }

  lemma RecordCost(s0: Fs, s: Fs, o0: Owner, o: Owner, d: Loc, src: Loc, x: Loc, i: int, j: int, h: nat, c: int,
                   ok: bool)
    requires h > 0 && SourceDir(s0, o0, d, src, h, i * FILE2BLK + j) && x == KidLoc(s, src, i * FILE2BLK + j)
    requires FileAt(s, x).name != "" ==> At1(s0, s, o, d, src, i + 1, i * FILE2BLK + j, h - 1, c, ok)
    requires FileAt(s, x).name == "" ==> KidName(s0, src, i * FILE2BLK + j) == ""
    ensures SpentAt(s0, src, h, i, j + 1) ==
            SpentAt(s0, src, h, i, j) + if FileAt(s, x).name == "" then 0 else Cost(TreeOf(s0, x, h - 1))
  {
    var q := i * FILE2BLK + j;
    hide Inv, Grow, PtrOf, Copying, DirPart, Whole, Avoids, Cost, TreeOf, CostAll, FileAt, Kids, KidLoc, At1;
    if FileAt(s, x).name != "" { SameKidOf(s0, s, o0, o, d, src, i + 1, q, h, c, ok); }
    assert q >= 0 && i * FILE2BLK + (j + 1) == q + 1;
    hide SourceDir, KidName;
    KidsCostStep(s0, src, h - 1, q);
  }

  lemma KidsCostStep(s0: Fs, src: Loc, h: nat, q: int)
    requires q >= 0
    ensures CostAll(Kids(s0, src, h, q + 1)) ==
            CostAll(Kids(s0, src, h, q)) +
            if KidName(s0, src, q) == "" then 0 else Cost(TreeOf(s0, KidLoc(s0, src, q), h))
  {
    KidsStep(s0, src, h, q);
    CostMore(Kids(s0, src, h, q), TreeOf(s0, KidLoc(s0, src, q), h));
    assert Kids(s0, src, h, q) + [] == Kids(s0, src, h, q);
    hide Kids, TreeOf, KidLoc, KidName, CostAll, Cost;
  }

  lemma RecordHere(m: Server, s0: Fs, o0: Owner, d: Loc, src: Loc, i: int, j: int, b: int, h: nat, c: int, ok: bool)
    requires m.Valid() && Source(s0, o0, d, src, h) && h > 0 && 0 <= j < FILE2BLK && b in m.cache
    requires RecState(s0, m.V(), d, src, i, j, b, h, c, ok)
    ensures var q := i * FILE2BLK + j;
            && m.Cached(At(b, j)) && m.Get(At(b, j)) == FileAt(m.V(), At(b, j)) && At(b, j) == KidLoc(m.V(), src, q)
            && (i + 1) * FILE2BLK <= NKids(m.V(), d) && SourceDir(s0, o0, d, src, h, q)
            && (FileAt(m.V(), At(b, j)).name == "" ==> KidName(s0, src, q) == "")
            && (FileAt(m.V(), At(b, j)).name != "" ==> At1(s0, m.V(), m.owner, d, src, i + 1, q, h - 1, c, ok))
    ensures h > 0 && FileAt(s0, src).kind == Dir && 0 <= i < NBlock(FileAt(s0, src).size) && b == PtrOf(m.V(), src, i)
    ensures !ok ==> NoFree(m.V())
  {
    var q := i * FILE2BLK + j;
    assert PtrOf(m.V(), src, i) != 0;
    assert q / FILE2BLK == i && q % FILE2BLK == j;
    KidCached(m, src, i, j);
    KidThen(s0, m.V(), o0, d, src, i + 1, h, q);
  }

  /** One block: refused, or copied. */
  method CopyBlockOf(m: Server, d: Loc, src: Loc, kind: Kind, i: int,
                     ghost s0: Fs, ghost o0: Owner, ghost h: nat, ghost c0: int, ok0: bool)
    returns (stop: bool, ghost c: int, ok: bool)
    requires m.Valid() && m.Handle(d) && m.Handle(src) && Source(s0, o0, d, src, h) && kind == FileAt(s0, src).kind
    requires Progress(s0, m.V(), d, src, i, h, c0, ok0) && 0 <= i < NBlock(FileAt(s0, src).size)
    modifies m
    ensures m.Valid() && m.Handle(d) && m.Handle(src) && old(m.cache.Keys) <= m.cache.Keys
    ensures stop ==> Copied(s0, m.V(), d, src, h, false)
    ensures !stop ==> Progress(s0, m.V(), d, src, i + 1, h, c, ok)
    ensures FreeCount(m.free) + 4 - SpentOn(s0, src, h, i) >= FreeCount(old(m.free)) - SpentOn(s0, src, h, i + 1)
    decreases h, 2
  {
    hide Server.CacheOk;
    hide Inv, Grow, FileAt, Ptr, PtrOf, Cell, Live, Copying, DirPart, RegPart, Whole, Avoids, KidName, KidLoc;
    hide NoFree, InUse, Filled, NoNames, MayAlloc, Copied;
    hide Progress, SpentOn, SpentAt, RecState, NBlock, FreeCount;
    c, ok, stop := c0, ok0, true;
    ghost var s, o := m.V(), m.owner;
    MayFetch(s0, s, o, d, src, i, h, c, ok);
    SpentMore(s0, src, h, i, i + 1);
    var r, b, b1;
    r, b := FileGetBlock(m, src, i);
    ghost var s1, o1 := m.V(), m.owner;
    SrcFetched(s0, s, s1, o, o1, d, src, i, h, c, ok);
    MayFetch(s0, s1, o1, d, src, i, h, c, ok);
    if r < 0 {
      Stopped(s0, s1, d, src, i, h, c, ok);
      return;
    }
    r, b1 := FileGetBlock(m, d, i);
    ghost var s2 := m.V();
    FilledLive(s1, s2, d, i, src);
    if r < 0 {
      DstRefused(s0, s1, s2, o1, d, src, i, h, c, ok);
      return;
    }
    DstFetched(s0, s1, s2, o1, m.owner, d, src, i, h, c, ok);
    CopyLive(s0, s2, d, src, i + 1);
    FetchedPtr(s1, s2, d, src, i);
    stop := false;
    if kind == Reg {
      CopyData(m, d, src, i, b, b1, s0);
    } else {
      BlockState(s0, s2, d, src, i, b, h, c, ok);
      c, ok := CopyRecords(m, d, src, i, b, s0, o0, h, c, ok);
      BlockDone(s0, m.V(), d, src, i, b, h, c, ok);
    }
    if kind == Reg { RegDone(s0, m.V(), d, src, i + 1, h, c, ok); }
  }

  lemma RegDone(s0: Fs, s: Fs, d: Loc, src: Loc, n: int, h: nat, c: int, ok: bool)
    requires FileAt(s0, src).kind == Reg && Copying(s0, s, d, src, n) && RegPart(s0, s, d, src, n) && ok
    ensures Progress(s0, s, d, src, n, h, c, ok)
  {}

  lemma BlockState(s0: Fs, s: Fs, d: Loc, src: Loc, i: int, b: int, h: nat, c: int, ok: bool)
    requires Copying(s0, s, d, src, i + 1) && (!ok ==> NoFree(s)) && FileAt(s0, src).kind == Dir
    requires b == PtrOf(s, src, i)
    requires h > 0 && DirPart(s0, s, d, src, i + 1, i * FILE2BLK, h - 1, c, ok) && 0 <= i < NBlock(FileAt(s0, src).size)
    ensures RecState(s0, s, d, src, i, 0, b, h, c, ok) && SpentAt(s0, src, h, i, 0) == SpentOn(s0, src, h, i)
    ensures SpentAt(s0, src, h, i, FILE2BLK) == SpentOn(s0, src, h, i + 1)
  {
    hide PtrOf, FileAt, Copying, DirPart, NoFree;
    assert i * FILE2BLK + FILE2BLK == (i + 1) * FILE2BLK;
  }

  lemma BlockDone(s0: Fs, s: Fs, d: Loc, src: Loc, i: int, b: int, h: nat, c: int, ok: bool)
    requires RecState(s0, s, d, src, i, FILE2BLK, b, h, c, ok)
    ensures Progress(s0, s, d, src, i + 1, h, c, ok)
  {
    hide PtrOf, FileAt, Copying, DirPart, NoFree;
    assert i * FILE2BLK + FILE2BLK == (i + 1) * FILE2BLK;
  }

  lemma {:induction false} KidsCost(s0: Fs, src: Loc, h: nat, p: int, q: int)
    requires 0 <= p <= q
    ensures CostAll(Kids(s0, src, h, p)) <= CostAll(Kids(s0, src, h, q))
    decreases q
  {
    hide Kids, TreeOf, CostAll, Cost, KidLoc, KidName;
    if p < q {
      KidsCost(s0, src, h, p, q - 1);
      KidsCostStep(s0, src, h, q - 1);
    }
  }

  lemma SpentMore(s0: Fs, src: Loc, h: nat, i: int, n: int)
    requires 0 <= i <= n
    ensures SpentOn(s0, src, h, i) <= SpentOn(s0, src, h, n)
  {
    hide Kids, TreeOf, CostAll, Cost, FileAt;
    if FileAt(s0, src).kind == Dir && h > 0 { KidsCost(s0, src, h - 1, i * FILE2BLK, n * FILE2BLK); }
  }

  lemma SpentAll(s0: Fs, src: Loc, h: nat, n: int)
    requires n == NBlock(FileAt(s0, src).size) && FileAt(s0, src).size >= 0
    ensures 4 * n + SpentOn(s0, src, h, n) == Cost(TreeOf(s0, src, h)) && SpentOn(s0, src, h, 0) == 0
  {
    assert h > 0 ==> Kids(s0, src, h - 1, 0) == [];
    assert CostAll([]) == 0;
    hide Kids;
  }

  lemma MayFetch(s0: Fs, s: Fs, o: Owner, d: Loc, src: Loc, i: int, h: nat, c: int, ok: bool)
    requires Inv(s, o) && Progress(s0, s, d, src, i, h, c, ok) && 0 <= i < NBlock(FileAt(s0, src).size)
    requires FileAt(s0, src).name != "" && Whole(s0, src, h)
    ensures MayAlloc(s, src, i) && MayAlloc(s, d, i) && Live(s, src) && Live(s, d) && i < NINDIRECT
  {
  }

  lemma SrcFetched(s0: Fs, s: Fs, s': Fs, o: Owner, o': Owner, d: Loc, src: Loc, i: int, h: nat, c: int, ok: bool)
    requires Inv(s, o) && Inv(s', o') && Progress(s0, s, d, src, i, h, c, ok) && Filled(s, s', src, i)
    ensures Progress(s0, s', d, src, i, h, c, ok)
  {
    hide Inv, Grow, Copying, DirPart, RegPart, NoFree, Filled, FileAt, PtrOf;
    FetchSrc(s0, s, s', o, d, src, i);
    if !ok { NoFreeGrow(s, s', o, o', Null); }
    if FileAt(s0, src).kind == Dir { PartKept(s0, s, s', o, d, src, i, i * FILE2BLK, h - 1, c, ok); }
  }

  lemma DstFetched(s0: Fs, s: Fs, s': Fs, o: Owner, o': Owner, d: Loc, src: Loc, i: int, h: nat, c: int, ok: bool)
    requires Inv(s, o) && Inv(s', o') && Progress(s0, s, d, src, i, h, c, ok) && Filled(s, s', d, i)
    requires PtrOf(s, src, i) != 0 && PtrOf(s', d, i) != 0
    ensures Copying(s0, s', d, src, i + 1) && (!ok ==> NoFree(s'))
    ensures if FileAt(s0, src).kind == Reg then RegPart(s0, s', d, src, i) && ok
            else h > 0 && DirPart(s0, s', d, src, i + 1, i * FILE2BLK, h - 1, c, ok)
  {
    hide Inv, Grow, DirPart, RegPart, NoFree, Filled, NoNames, FileAt, PtrOf, InUse, Live;
    assert i >= 0;
    hide Copying;
    FetchDst(s0, s, s', o, d, src, i);
    if !ok { NoFreeGrow(s, s', o, o', Null); }
    if FileAt(s0, src).kind == Dir {
      PartKept(s0, s, s', o, d, src, i, i * FILE2BLK, h - 1, c, ok);
      PartGrown(s0, s', d, src, i, i * FILE2BLK, h - 1, c, ok);
    }
  }

  lemma Stopped(s0: Fs, s: Fs, d: Loc, src: Loc, i: int, h: nat, c: int, ok: bool)
    requires Progress(s0, s, d, src, i, h, c, ok) && NoFree(s)
    ensures Copied(s0, s, d, src, h, false)
  {}

  lemma DstRefused(s0: Fs, s: Fs, s': Fs, o: Owner, d: Loc, src: Loc, i: int, h: nat, c: int, ok: bool)
    requires Inv(s, o) && Progress(s0, s, d, src, i, h, c, ok) && Filled(s, s', d, i) && NoFree(s')
    ensures Copied(s0, s', d, src, h, false)
  {
    FilledGrow(s, s', d, i, Null);
    GrowThen(s0, s, s', o, d, Null);
    assert SameHead(FileAt(s, d), FileAt(s', d));
  }

  lemma FetchedPtr(s: Fs, s': Fs, d: Loc, src: Loc, i: int)
    requires Filled(s, s', d, i) && d != src
    ensures PtrOf(s', src, i) == PtrOf(s, src, i)
  {}

  /** copy_deep. The height bounds the recursion; `ok` says that no block was refused. */
  method CopyDeep(m: Server, d: Loc, src: Loc, ghost h: nat) returns (ok: bool)
    requires m.Valid() && m.Handle(d) && m.Handle(src) && Clean(m.V(), d, src) && FileAt(m.V(), src).name != ""
    requires Whole(m.V(), src, h) && Avoids(m.V(), src, h, d)
    modifies m
    ensures m.Valid() && m.Handle(d) && old(m.cache.Keys) <= m.cache.Keys
    ensures Copied(old(m.V()), m.V(), d, src, h, ok)
    ensures FreeCount(m.free) >= FreeCount(old(m.free)) - Cost(TreeOf(old(m.V()), src, h))
    ensures FreeCount(old(m.free)) > Cost(TreeOf(old(m.V()), src, h)) ==> ok
    decreases h, 3
  {
    hide Server.CacheOk;
    hide Inv, Grow, FileAt, Ptr, PtrOf, Cell, Live, InUse, Copying, Copied, Whole, Avoids, Progress, Clean, TreeOf;
    hide Cost, SpentOn, Head;
    ghost var s0, o0 := m.V(), m.owner;
    StartReady(m, d, src, h);
    var f := m.Get(src);
    m.Put(d, m.Get(d).(name := f.name, size := f.size, kind := f.kind));
    assert m.V() == Head(s0, d, src);
    var nblock := NBlock(f.size);
    SpentAll(s0, src, h, nblock);
    var i := 0;
    ghost var c := 0;
    ok := true;
    while i < nblock
      invariant 0 <= i && (i <= nblock || i == 0) && m.Valid() && m.Handle(d) && m.Handle(src)
      invariant old(m.cache.Keys) <= m.cache.Keys && Progress(s0, m.V(), d, src, i, h, c, ok)
      invariant FreeCount(m.free) >= FreeCount(s0.free) - 4 * i - SpentOn(s0, src, h, i)
    {
      var stop;
      stop, c, ok := CopyBlockOf(m, d, src, f.kind, i, s0, o0, h, c, ok);
      SpentMore(s0, src, h, i + 1, nblock);
      if stop {
        OutOfBlocks(s0, m.V(), d, src, h);
        return false;
      }
      i := i + 1;
    }
    Finished(s0, o0, m.V(), d, src, h, c, ok, i);
    if !ok { OutOfBlocks(s0, m.V(), d, src, h); }
  }

  lemma StartReady(m: Server, d: Loc, src: Loc, h: nat)
    requires m.Valid() && m.Handle(d) && m.Handle(src) && Clean(m.V(), d, src) && FileAt(m.V(), src).name != ""
    requires Whole(m.V(), src, h) && Avoids(m.V(), src, h, d)
    ensures m.Cached(src) && m.Cached(d) && m.Get(src) == FileAt(m.V(), src) && FileOk(FileAt(m.V(), src))
    ensures CanPut(m.V(), d) && d.At? && d.blk in m.cache && Source(m.V(), m.owner, d, src, h)
    ensures var f := m.Get(src); var s := Head(m.V(), d, src);
            && PutFile(m.V(), d, m.Get(d).(name := f.name, size := f.size, kind := f.kind)) == s
            && Inv(s, m.owner) && Live(s, d) && Live(s, src) && s.free == m.free
            && Progress(m.V(), s, d, src, 0, h, 0, true)
  {
    m.Handled(src);
    m.Handled(d);
    HeadCopied(m.V(), m.owner, d, src);
    StartCopy(m.V(), m.owner, d, src, h);
  }

  lemma OutOfBlocks(s0: Fs, s: Fs, d: Loc, src: Loc, h: nat)
    requires Copied(s0, s, d, src, h, false)
    ensures FreeCount(s.free) == 0
  {
    NoneFree(s.free);
  }

  lemma StartCopy(s0: Fs, o0: Owner, d: Loc, src: Loc, h: nat)
    requires Inv(s0, o0) && Clean(s0, d, src) && Live(s0, src) && FileAt(s0, src).name != "" && Whole(s0, src, h)
    ensures CanPut(s0, d) && Progress(s0, Head(s0, d, src), d, src, 0, h, 0, true)
    ensures Live(Head(s0, d, src), src) && Named(s0, src)
  {
    HeadCopied(s0, o0, d, src);
    var s := Head(s0, d, src);
    forall k ensures PtrOf(s, d, k) == 0 {}
    assert Live(s, src);
  }

  lemma Finished(s0: Fs, o0: Owner, s: Fs, d: Loc, src: Loc, h: nat, c: int, ok: bool, n: int)
    requires Inv(s0, o0) && Progress(s0, s, d, src, n, h, c, ok) && Whole(s0, src, h)
    requires n == NBlock(FileAt(s0, src).size)
    ensures Copied(s0, s, d, src, h, ok)
  {
    hide Inv, Copying, DirPart, RegPart, Whole, Copied, FileAt;
    if FileAt(s0, src).kind == Reg {
      RegFinished(s0, s, d, src, h);
    } else {
      DirFinished(s0, s, d, src, h, c, ok);
    }
  }

  // ---- copying into a directory ----

  /** What a copy into a directory promises: a new record of it with an equal tree, the source as before. */
  ghost predicate CopiedInto(s0: Fs, s: Fs, dir: Loc, src: Loc, file: Loc, h: nat) {
    && TreeOf(s, file, h) == TreeOf(s0, src, h) && TreeOf(s, src, h) == TreeOf(s0, src, h)
    && (exists q :: 0 <= q < NKids(s, dir) && file == KidLoc(s, dir, q))
  }

  /** The source seen past the lookup and the new record, and the new record away from it. */
  lemma IntoReady(s0: Fs, s1: Fs, s2: Fs, o0: Owner, o1: Owner, o2: Owner, dir: Loc, src: Loc, file: Loc, q: int,
                  h: nat)
    requires Inv(s0, o0) && Inv(s1, o1) && Inv(s2, o2) && Grow(s0, s1, Null) && Grow(s1, s2, dir)
    requires src != dir && Live(s0, src) && Used(s0, dir) && FileAt(s0, src).name != ""
    requires Whole(s0, src, h) && Avoids(s0, src, h, dir) && NewRecord(s1, s2, dir, file, q) && Live(s2, file)
    requires FileAt(s2, dir).kind == Dir && file != Root
    ensures Clean(s2, file, src) && Live(s2, src) && FileAt(s2, src).name != "" && Whole(s2, src, h)
    ensures Avoids(s2, src, h, file) && Avoids(s2, src, h, dir) && TreeOf(s2, src, h) == TreeOf(s0, src, h)
  {
    assert SameFace(FileAt(s0, src), FileAt(s1, src)) && Used(s1, src) && Used(s1, dir) && Live(s2, src);
    assert SameFace(FileAt(s1, src), FileAt(s2, src));
    AvoidsNull(s0, src, h);
    TreeGrow(s0, s1, o0, Null, src, h);
    AvoidsGrow(s0, s1, o0, Null, src, h, dir);
    TreeGrow(s1, s2, o1, dir, src, h);
    AvoidsGrow(s1, s2, o1, dir, src, h, dir);
    assert PtrOf(s2, dir, q / FILE2BLK) != 0 by { assert !InUse(s2, 0); }
    AvoidsHeld(s2, o2, src, h, dir, q / FILE2BLK, q % FILE2BLK);
    EmptyClean(s2, o2, file, src, s1, dir, q);
  }

  lemma IntoDone(s0: Fs, s1: Fs, s2: Fs, s3: Fs, o2: Owner, dir: Loc, src: Loc, file: Loc, q: int, h: nat)
    requires Inv(s2, o2) && Used(s2, dir) && dir != file && NewRecord(s1, s2, dir, file, q)
    requires Copied(s2, s3, file, src, h, true)
    requires Clean(s2, file, src) && Used(s2, src) && Whole(s2, src, h) && Avoids(s2, src, h, file)
    requires TreeOf(s2, src, h) == TreeOf(s0, src, h)
    ensures CopiedInto(s0, s3, dir, src, file, h)
  {
    TreeGrow(s2, s3, o2, file, src, h);
    assert SameFace(FileAt(s2, dir), FileAt(s3, dir));
    assert PtrOf(s2, dir, q / FILE2BLK) != 0 by { assert !InUse(s2, 0); }
    GrowPtrAt(s2, s3, file, dir, q / FILE2BLK);
    assert file == KidLoc(s3, dir, q) && 0 <= q < NKids(s3, dir);
  }

  /**
    copy, into a directory that is not inside the source: refused when a record has the name, or when the lookup
    is stopped; otherwise copied, unless no record or no block is to be had. Either way the directory has at most
    the one record more, and every other file is as it was.
   */
  method Copy(m: Server, dir: Loc, src: Loc, ghost h: nat) returns (r: int, ok: bool, file: Loc, ghost q: int)
    requires DirHandle(m, dir) && m.Handle(src) && src != dir && FileAt(m.V(), src).name != ""
    requires Whole(m.V(), src, h) && Avoids(m.V(), src, h, dir)
    modifies m
    ensures m.Valid() && old(m.cache.Keys) <= m.cache.Keys
    ensures r == 0 || r == -1 || r == -E_INVAL || r == -E_NO_DISK
    ensures Present(old(m.V()), dir, FileAt(old(m.V()), src).name) ==> r == -1
    ensures r == -1 ==> Present(old(m.V()), dir, FileAt(old(m.V()), src).name) || !CanScan(old(m.V()), dir)
    ensures r != 0 && r != -1 ==> Refused(old(m.V()), m.V(), dir)
    ensures r == 0 && ok ==> CopiedInto(old(m.V()), m.V(), dir, src, file, h)
    ensures r == 0 && !ok ==> NoFree(m.V())
    ensures CanGrow(old(m.V()), dir, Cost(TreeOf(old(m.V()), src, h))) ==>
      if Present(old(m.V()), dir, FileAt(old(m.V()), src).name) then r == -1 else r == 0 && ok
    ensures r == -1 ==> Grow(old(m.V()), m.V(), Null)
    ensures Undone(old(m.V()), m.V(), dir, r != 0)
    ensures r == 0 ==> Done(old(m.V()), m.V(), dir, file, q, FileAt(old(m.V()), src).name)
  {
    hide Server.CacheOk;
    hide DirGrew, NamesBut, KeptBut, Done;
    assert Live(m.V(), dir) && Used(m.V(), dir);
    hide Inv, Grow, FileAt, PtrOf, InUse, Whole, Avoids, TreeOf, NewRecord, NoneBefore, FirstEmpty, Touch;
    hide CopiedInto, NoFree, KidLoc, NKids;
    hide Present, CanScan, CanAdd, CanGrow, Refused, Looked, AllocResult, FreeCount, Cost;
    ghost var s0, o0 := m.V(), m.owner;
    ok, file := true, Null;
    m.Handled(src);
    var name := m.Get(src).name;
    r, file, q := DirLookup(m, dir, name);
    LookedSays(s0, m.V(), dir, r, file, q, name);
    GrowsAdds(s0, dir, Cost(TreeOf(s0, src, h)));
    ghost var s1, o1 := m.V(), m.owner;
    LookedNames(s0, s1, o0, o1, dir, r, file, q, name);
    if r != -E_NOT_FOUND { return -1, ok, file, q; }
    GrowLive(s0, s1, src);
    r, file, q := DirAllocFile(m, dir);
    AllocTells(s0, s1, m.V(), o0, dir, r, file, q, name, Cost(TreeOf(s0, src, h)));
    AllocNames(s0, s1, m.V(), o1, dir);
    if r != 0 { return; }
    ok := CopyTo(m, dir, src, file, q, h, s0, o0, s1, o1);
  }

  lemma GrowsAdds(s: Fs, dir: Loc, extra: nat)
    ensures CanGrow(s, dir, extra) ==> CanAdd(s, dir)
  {
    hide CanAdd, FreeCount;
  }

  /** copy_deep into the new record. */
  method CopyTo(m: Server, dir: Loc, src: Loc, file: Loc, ghost q: int, ghost h: nat,
                ghost s0: Fs, ghost o0: Owner, ghost s1: Fs, ghost o1: Owner) returns (ok: bool)
    requires DirHandle(m, dir) && m.Handle(file) && Inv(s0, o0) && Inv(s1, o1)
    requires src != dir && Live(s0, src) && Live(s0, dir) && FileAt(s0, src).name != ""
    requires (src.At? ==> src.blk in m.cache)
    requires Grow(s0, s1, Null) && Grow(s1, m.V(), dir) && NewRecord(s1, m.V(), dir, file, q) && Live(s1, src)
    requires Whole(s0, src, h) && Avoids(s0, src, h, dir) && Undone(s0, m.V(), dir, true)
    modifies m
    ensures m.Valid() && old(m.cache.Keys) <= m.cache.Keys
    ensures Done(s0, m.V(), dir, file, q, FileAt(s0, src).name)
    ensures ok ==> CopiedInto(s0, m.V(), dir, src, file, h)
    ensures !ok ==> NoFree(m.V())
    ensures FreeCount(old(m.free)) > Cost(TreeOf(s0, src, h)) ==> ok
  {
    hide Server.CacheOk;
    hide Inv, Grow, FileAt, PtrOf, InUse, Whole, Avoids, TreeOf, NewRecord, NoneBefore, CopiedInto, NoFree, KidLoc;
    hide NKids;
    hide FreeCount, Cost, DirGrew, NamesBut, KeptBut, Done;
    ghost var s2, o2 := m.V(), m.owner;
    assert file != Root by { RootNamed(s1, s2, dir, file, q); }
    IntoReady(s0, s1, s2, o0, o1, o2, dir, src, file, q, h);
    GrowLiveAt(s1, s2, dir, src);
    NewHere(s1, s2, o2, dir, file, q);
    ok := CopyDeep(m, file, src, h);
    CopyNames(s0, s2, m.V(), o2, dir, src, file, q, h, ok);
    if ok {
      assert dir != file by { NewOther(s1, s2, dir, file, q); }
      IntoDone(s0, s1, s2, m.V(), o2, dir, src, file, q, h);
    }
  }

  /** What the copy leaves of the directory, and of everything else. */
  lemma CopyNames(s0: Fs, s2: Fs, s3: Fs, o2: Owner, dir: Loc, src: Loc, file: Loc, q: int, h: nat, ok: bool)
    requires Undone(s0, s2, dir, true) && Copied(s2, s3, file, src, h, ok) && Inv(s2, o2) && Used(s0, src)
    requires Used(s0, dir) && src != dir && file == KidLoc(s2, dir, q) && PtrOf(s2, dir, q / FILE2BLK) != 0
    requires file != dir && q >= 0 && KidName(s2, dir, q) == ""
    ensures Done(s0, s3, dir, file, q, FileAt(s0, src).name)
  {
    assert SameFace(FileAt(s0, src), FileAt(s2, src));
    OwnedOf(s2, o2);
    GrowUse(s0, s2, dir);
    CopyDir(s2, s3, o2, dir, file, q);
    assert KidName(s3, dir, q) == FileAt(s0, src).name by { GrowPtrAt(s2, s3, file, dir, q / FILE2BLK); }
    GrowLeak(s0, s2, s3, dir, file);
    hide Inv, Owned, FileAt, PtrOf, Grow, DirGrew, NamesBut, KeptBut, TreeOf, NoLeak;
    KeptThen(s0, s2, s3, o2, dir, q, file);
    DirGrewThen(s0, s2, s3, dir, q);
    assert file == KidLoc(s3, dir, q) by { GrowPtrAt(s2, s3, file, dir, q / FILE2BLK); }
  }

  /** Growing one record of a directory leaves the names of the others. */
  lemma CopyDir(s: Fs, s': Fs, o: Owner, dir: Loc, file: Loc, q: int)
    requires Inv(s, o) && Grow(s, s', file) && Used(s, dir) && dir != file
    requires q >= 0 && file == KidLoc(s, dir, q) && PtrOf(s, dir, q / FILE2BLK) != 0 && KidName(s, dir, q) == ""
    ensures DirGrew(s, s', dir) && NamesBut(s, s', dir, q) && FileAt(s', dir).size == FileAt(s, dir).size
  {
    assert SameFace(FileAt(s, dir), FileAt(s', dir));
    forall k ensures GrowCell(s, s', dir, k) { var z := PtrOf(s', dir, k); }
    OwnedOf(s, o);
    hide Inv, Owned, FileAt, PtrOf, Grow;
    forall p | p >= 0 && p != q ensures KidName(s', dir, p) == KidName(s, dir, p) {
      KidsApart(s, o, dir, q, p);
      KidGrow(s, s', o, file, dir, p);
    }
  }

  lemma RootNamed(s1: Fs, s2: Fs, dir: Loc, file: Loc, q: int)
    requires NewRecord(s1, s2, dir, file, q)
    ensures file != Root
  {}

  lemma NewOther(s1: Fs, s2: Fs, dir: Loc, file: Loc, q: int)
    requires NewRecord(s1, s2, dir, file, q) && Named(s2, dir)
    ensures dir != file
  {}
}
