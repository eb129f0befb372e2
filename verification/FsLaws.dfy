/** What a deep copy means for the disk. */
module FsLaws {
  // The source is untouched, the two trees share no block, and every directory has a height to recurse on.

  import opened FsModel
  import opened FsOps
  import opened FsTree
  import opened FsCopy

  /** Whether it succeeded or not, every tree that does not contain the destination reads as before. */
  lemma SourceUnchanged(s0: Fs, s: Fs, o0: Owner, d: Loc, src: Loc, h: nat, ok: bool, x: Loc, hx: nat)
    requires Inv(s0, o0) && Copied(s0, s, d, src, h, ok)
    requires x != d && Used(s0, x) && Whole(s0, x, hx) && Avoids(s0, x, hx, d)
    ensures TreeOf(s, x, hx) == TreeOf(s0, x, hx)
  {
    TreeGrow(s0, s, o0, d, x, hx);
  }

  // ---- reading by path ----

  /** The first of the first `n` records with the name, as dir_lookup finds it; -1 when none has it. */
  function FirstOf(s: Fs, loc: Loc, n: int, name: string): (q: int)
    ensures -1 <= q && (q >= 0 ==> q < n && KidName(s, loc, q) == name)
    decreases n
  {
    if n <= 0 then -1
    else
      var q := FirstOf(s, loc, n - 1, name);
      if q >= 0 then q else if KidName(s, loc, n - 1) == name then n - 1 else -1
  }

  function Find(ts: seq<Tree>, name: string): (k: int)
    ensures -1 <= k < |ts| && (k >= 0 ==> ts[k].name == name)
  {
    if ts == [] then -1
    else
      var k := Find(ts[..|ts| - 1], name);
      if k >= 0 then k else if ts[|ts| - 1].name == name then |ts| - 1 else -1
  }

  /** walk_path: the record at the end of a path, or Null. */
  function Walk(s: Fs, loc: Loc, path: seq<string>): Loc
    decreases |path|
  {
    if path == [] then loc
    else if FileAt(s, loc).kind == Reg then Null
    else
      var q := FirstOf(s, loc, NKids(s, loc), path[0]);
      if q < 0 then Null else Walk(s, KidLoc(s, loc, q), path[1..])
  }

  /** A directory's first record with a name is the first tree with it. */
  lemma {:induction false} FirstKid(s: Fs, loc: Loc, h: nat, n: int, name: string)
    requires name != ""
    ensures var ts, q := Kids(s, loc, h, n), FirstOf(s, loc, n, name); var k := Find(ts, name);
      (k < 0 <==> q < 0) && (q >= 0 ==> ts[k] == TreeOf(s, KidLoc(s, loc, q), h))
    decreases n
  {
    hide *;
    if n <= 0 {
      KidsNone(s, loc, h, n);
    } else {
      var ts, x := Kids(s, loc, h, n - 1), TreeOf(s, KidLoc(s, loc, n - 1), h);
      FirstKid(s, loc, h, n - 1, name);
      KidsStep(s, loc, h, n - 1);
      FirstStep(s, loc, h, n, name);
      FindMore(ts, x, Kids(s, loc, h, n), name);
    }
  }

  lemma KidsNone(s: Fs, loc: Loc, h: nat, n: int)
    requires n <= 0
    ensures Kids(s, loc, h, n) == []
  {}

  lemma FirstStep(s: Fs, loc: Loc, h: nat, n: int, name: string)
    requires n > 0
    ensures TreeOf(s, KidLoc(s, loc, n - 1), h).name == KidName(s, loc, n - 1)
    ensures FirstOf(s, loc, n, name) ==
      var q := FirstOf(s, loc, n - 1, name); if q < 0 && KidName(s, loc, n - 1) == name then n - 1 else q
  {
    hide FileAt, KidLoc;
  }

  lemma FindMore(ts: seq<Tree>, x: Tree, us: seq<Tree>, name: string)
    requires name != "" && us == ts + if x.name == "" then [] else [x]
    ensures Find(us, name) == if Find(ts, name) < 0 && x.name == name then |ts| else Find(ts, name)
    ensures Find(us, name) >= 0 ==> us[Find(us, name)] == if Find(ts, name) < 0 then x else ts[Find(ts, name)]
  {
    if x.name == "" {
      assert us == ts;
    } else {
      assert us[..|ts|] == ts;
    }
  }

  /** The kids of equal trees are the same. */
  lemma EqualKids(s: Fs, x: Loc, s': Fs, x': Loc, h: nat, name: string)
    requires TreeOf(s', x', h) == TreeOf(s, x, h) && Whole(s, x, h) && FileAt(s, x).kind == Dir && name != ""
    ensures var q, q' := FirstOf(s, x, NKids(s, x), name), FirstOf(s', x', NKids(s', x'), name);
      && (q < 0 <==> q' < 0)
      && (q >= 0 ==>
            && h > 0 && Whole(s, KidLoc(s, x, q), h - 1)
            && TreeOf(s', KidLoc(s', x', q'), h - 1) == TreeOf(s, KidLoc(s, x, q), h - 1))
  {
    hide *;
    EqualNodes(s, x, s', x', h);
    FirstKid(s, x, h - 1, NKids(s, x), name);
    FirstKid(s', x', h - 1, NKids(s', x'), name);
    var q := FirstOf(s, x, NKids(s, x), name);
    if q >= 0 { WholeKid(s, x, h, q); }
  }

  lemma EqualNodes(s: Fs, x: Loc, s': Fs, x': Loc, h: nat)
    requires TreeOf(s', x', h) == TreeOf(s, x, h) && Whole(s, x, h) && FileAt(s, x).kind == Dir
    ensures h > 0 && Kids(s', x', h - 1, NKids(s', x')) == Kids(s, x, h - 1, NKids(s, x))
  {
    hide FileAt, Kids, Cells;
  }

  lemma WholeKid(s: Fs, x: Loc, h: nat, q: int)
    requires Whole(s, x, h) && FileAt(s, x).kind == Dir && 0 <= q < NKids(s, x) && KidName(s, x, q) != ""
    ensures h > 0 && Whole(s, KidLoc(s, x, q), h - 1)
  {
    hide FileAt, KidLoc;
  }

  /** Two files of one type, one size and the same blocks. */
  ghost predicate ReadAlike(s: Fs, x: Loc, s': Fs, x': Loc) {
    && SameFace(FileAt(s, x), FileAt(s', x'))
    && (FileAt(s, x).kind == Reg ==> forall i {:trigger Cell(s, x, i)} :: 0 <= i < NBlock(FileAt(s, x).size) ==>
                                      Cell(s', x', i) == Cell(s, x, i))
  }

  lemma EqualHeads(s: Fs, x: Loc, s': Fs, x': Loc, h: nat)
    requires TreeOf(s', x', h) == TreeOf(s, x, h)
    ensures ReadAlike(s, x, s', x') && FileAt(s, x).kind == FileAt(s', x').kind
  {
    if FileAt(s, x).kind == Reg {
      var n := NBlock(FileAt(s, x).size);
      assert Cells(s', x', n) == Cells(s, x, n);
      forall i | 0 <= i < n ensures Cell(s', x', i) == Cell(s, x, i) {
        assert Cells(s', x', n)[i] == Cells(s, x, n)[i];
      }
    }
  }

  lemma WalkStep(s: Fs, x: Loc, path: seq<string>)
    requires x != Null
    ensures path == [] ==> Walk(s, x, path) == x != Null
    ensures path != [] && FileAt(s, x).kind == Reg ==> Walk(s, x, path) == Null
    ensures path != [] && FileAt(s, x).kind == Dir ==>
      var q := FirstOf(s, x, NKids(s, x), path[0]);
      && (q < 0 ==> Walk(s, x, path) == Null)
      && (q >= 0 ==> Walk(s, x, path) == Walk(s, KidLoc(s, x, q), path[1..]) && KidLoc(s, x, q) != Null)
  {
    hide FirstOf, FileAt;
  }

  /** Equal trees cannot be told apart by walking a path and reading what is there. */
  lemma {:induction false} EqualTrees(s: Fs, x: Loc, s': Fs, x': Loc, h: nat, path: seq<string>)
    requires TreeOf(s', x', h) == TreeOf(s, x, h) && Whole(s, x, h) && x != Null && x' != Null
    requires forall i :: 0 <= i < |path| ==> path[i] != ""
    ensures var y, y' := Walk(s, x, path), Walk(s', x', path);
      (y == Null <==> y' == Null) && (y != Null ==> ReadAlike(s, y, s', y'))
    decreases |path|
  {
    hide *;
    EqualHeads(s, x, s', x', h);
    WalkStep(s, x, path);
    WalkStep(s', x', path);
    if path != [] && FileAt(s, x).kind == Dir {
      EqualKids(s, x, s', x', h, path[0]);
      var q, q' := FirstOf(s, x, NKids(s, x), path[0]), FirstOf(s', x', NKids(s', x'), path[0]);
      if q >= 0 { EqualTrees(s, KidLoc(s, x, q), s', KidLoc(s', x', q'), h - 1, path[1..]); }
    }
  }

  /** After a complete copy, every path under the destination reads as it did under the source. */
  lemma CopyReads(s0: Fs, s: Fs, d: Loc, src: Loc, h: nat, path: seq<string>)
    requires Copied(s0, s, d, src, h, true) && Whole(s0, src, h) && d != Null && src != Null
    requires forall i :: 0 <= i < |path| ==> path[i] != ""
    ensures var y, y' := Walk(s0, src, path), Walk(s, d, path);
      (y == Null <==> y' == Null) && (y != Null ==> ReadAlike(s0, y, s, y'))
  {
    EqualTrees(s0, src, s, d, h, path);
  }

  // ---- disjointness ----

  /** Record `v` is part of the tree at `loc`. */
  ghost predicate Visits(s: Fs, loc: Loc, h: nat, v: Loc)
    decreases h
  {
    || v == loc
    || (FileAt(s, loc).kind == Dir && h > 0 && exists q {:trigger KidLoc(s, loc, q)} ::
          0 <= q < NKids(s, loc) && KidName(s, loc, q) != "" && Visits(s, KidLoc(s, loc, q), h - 1, v))
  }

  /** A tree holds block `b`: as a file block or as an indirect block of one of its records. */
  ghost predicate Holds(s: Fs, loc: Loc, h: nat, b: int) {
    b != 0 && exists v {:trigger Visits(s, loc, h, v)} :: Visits(s, loc, h, v) && HoldsIt(s, v, b)
  }

  lemma {:induction false} AvoidsVisits(s: Fs, loc: Loc, h: nat, v: Loc)
    requires Avoids(s, loc, h, v) && Visits(s, loc, h, v)
    ensures v == loc
    decreases h
  {
    if v != loc {
      var q :| 0 <= q < NKids(s, loc) && KidName(s, loc, q) != "" && Visits(s, KidLoc(s, loc, q), h - 1, v);
      AvoidsVisits(s, KidLoc(s, loc, q), h - 1, v);
    }
  }

  /** Every record of a tree that avoids `d` was in use before the copy. */
  lemma {:induction false} VisitsBefore(s0: Fs, s: Fs, o0: Owner, d: Loc, loc: Loc, h: nat, v: Loc)
    requires Inv(s0, o0) && Grow(s0, s, d) && loc != d && Used(s0, loc) && Avoids(s0, loc, h, d) && Visits(s, loc, h, v)
    ensures Used(s0, v) && v != d
    decreases h
  {
    if v != loc {
      var q :| 0 <= q < NKids(s, loc) && KidName(s, loc, q) != "" && Visits(s, KidLoc(s, loc, q), h - 1, v);
      assert SameFace(FileAt(s0, loc), FileAt(s, loc));
      assert KidLoc(s0, loc, q) != d;
      KidGrow(s0, s, o0, d, loc, q);
      VisitsBefore(s0, s, o0, d, KidLoc(s0, loc, q), h - 1, v);
    }
  }

  /** After a complete copy, no block is in both trees. */
  lemma Disjoint(s0: Fs, s: Fs, o0: Owner, o: Owner, d: Loc, src: Loc, h: nat, b: int)
    requires Inv(s0, o0) && Inv(s, o) && Copied(s0, s, d, src, h, true)
    requires d != src && Used(s0, src) && Avoids(s0, src, h, d)
    ensures !(Holds(s, d, h, b) && Holds(s, src, h, b))
  {
    if Holds(s, d, h, b) && Holds(s, src, h, b) {
      var v :| Visits(s, d, h, v) && HoldsIt(s, v, b);
      var w :| Visits(s, src, h, w) && HoldsIt(s, w, b);
      HolderIs(s, o, v, b);
      HolderIs(s, o, w, b);
      VisitsBefore(s0, s, o0, d, src, h, w);
      assert KidDone(s0, s, d, h);
      AvoidsVisits(s, d, h, v);
    }
  }

  /** The record whose slot a block's claim names. */
  function HolderOf(owner: Owner, b: int): Loc {
    if b !in owner then Null
    else match owner[b].slot
      case Direct(loc, _) => loc
      case Ind(loc) => loc
      case Entry(i, _) => if i in owner && owner[i].slot.Ind? then owner[i].slot.loc else Null
  }

  ghost predicate HoldsIt(s: Fs, v: Loc, b: int) { (exists k :: PtrOf(s, v, k) == b) || Ptr(s, Ind(v)) == b }

  lemma HolderIs(s: Fs, o: Owner, v: Loc, b: int)
    requires Inv(s, o) && b != 0 && HoldsIt(s, v, b)
    ensures HolderOf(o, b) == v
  {
    if Ptr(s, Ind(v)) == b {
      assert o[b].slot == Ind(v);
    } else {
      var k :| PtrOf(s, v, k) == b;
      assert o[b].slot == SlotOf(s, v, k);
      if k >= NDIRECT {
        assert InUse(s, Ptr(s, Ind(v)));
        assert o[Ptr(s, Ind(v))].slot == Ind(v);
      }
    }
  }

  // ---- heights ----

  /** No block is deeper than `top`. */
  ghost predicate Shallow(owner: Owner, top: int) {
    forall b {:trigger owner[b]} :: b in owner ==> owner[b].depth <= top
  }

  lemma {:induction false} SomeTop(owner: Owner)
    ensures exists top: int :: top >= 0 && Shallow(owner, top)
    decreases |owner|
  {
    if b :| b in owner {
      var rest := owner - {b};
      assert |rest.Keys| < |owner.Keys| by { assert rest.Keys == owner.Keys - {b}; }
      SomeTop(rest);
      var top: int :| top >= 0 && Shallow(rest, top);
      var t := if owner[b].depth > top then owner[b].depth else top;
      forall k | k in owner ensures owner[k].depth <= t { assert k != b ==> k in rest && rest[k] == owner[k]; }
      assert Shallow(owner, t);
    } else {
      assert Shallow(owner, 0);
    }
  }

  /** A child lies one level below its directory. */
  lemma Deeper(s: Fs, owner: Owner, loc: Loc, q: int)
    requires Inv(s, owner) && KidName(s, loc, q) != ""
    ensures LocDepth(owner, KidLoc(s, loc, q)) == LocDepth(owner, loc) + 1 && PtrOf(s, loc, q / FILE2BLK) in owner
  {
    var p := PtrOf(s, loc, q / FILE2BLK);
    assert p != 0 by { assert !InUse(s, 0); }
    assert owner[p] == Claim(SlotOf(s, loc, q / FILE2BLK), SlotDepth(owner, SlotOf(s, loc, q / FILE2BLK)));
    if q / FILE2BLK >= NDIRECT {
      assert InUse(s, Ptr(s, Ind(loc)));
    }
  }

  /** So directories are never cyclic: with no file over the size limit, every record has a height. */
  lemma {:induction false} HasHeight(s: Fs, owner: Owner, loc: Loc, top: int, h: nat)
    requires Inv(s, owner) && Shallow(owner, top) && top >= 0 && h > top - LocDepth(owner, loc)
    requires forall x {:trigger FileAt(s, x)} :: NBlock(FileAt(s, x).size) <= NINDIRECT
    ensures Whole(s, loc, h)
    decreases h
  {
    forall q | 0 <= q < NKids(s, loc) && KidName(s, loc, q) != "" && FileAt(s, loc).kind == Dir
      ensures h > 0 && Whole(s, KidLoc(s, loc, q), h - 1)
    {
      Deeper(s, owner, loc, q);
      HasHeight(s, owner, KidLoc(s, loc, q), top, h - 1);
    }
  }

  lemma EveryTreeWhole(s: Fs, owner: Owner, loc: Loc)
    requires Inv(s, owner)
    requires forall x {:trigger FileAt(s, x)} :: NBlock(FileAt(s, x).size) <= NINDIRECT
    ensures exists h: nat :: Whole(s, loc, h)
  {
    SomeTop(owner);
    var top: int :| top >= 0 && Shallow(owner, top);
    var h: nat := top - LocDepth(owner, loc) + 1;
    HasHeight(s, owner, loc, top, h);
  }
}
