/** Trees of files, and growth beside them. */
module FsTree {
  // The abstract contents of a file or directory, and what growing other parts of the disk leaves of them.

  import opened FsModel
  import opened FsOps
  import opened FsFile

  /** A regular file's blocks, or a directory's named records in order, recursively. */
  datatype Tree =
    | Leaf(name: string, size: int, cells: seq<Block>)
    | Node(name: string, size: int, kids: seq<Tree>)

  /** The number of blocks a size covers. */
  function NBlock(size: int): int { size / BY2BLK + if size % BY2BLK != 0 then 1 else 0 }

  /** Record `q` of a directory, counted through all its blocks. */
  function KidLoc(s: Fs, loc: Loc, q: int): Loc { At(PtrOf(s, loc, q / FILE2BLK), q % FILE2BLK) }

  function KidName(s: Fs, loc: Loc, q: int): string { FileAt(s, KidLoc(s, loc, q)).name }

  function NKids(s: Fs, loc: Loc): int { NBlock(FileAt(s, loc).size) * FILE2BLK }

  function Cells(s: Fs, loc: Loc, n: int): (r: seq<Block>)
    decreases n
    ensures |r| == (if n <= 0 then 0 else n) && forall i :: 0 <= i < n ==> r[i] == Cell(s, loc, i)
  {
    if n <= 0 then [] else Cells(s, loc, n - 1) + [Cell(s, loc, n - 1)]
  }

  function TreeOf(s: Fs, loc: Loc, h: nat): Tree
    decreases h, 0
  {
    var f := FileAt(s, loc);
    if f.kind == Reg then Leaf(f.name, f.size, Cells(s, loc, NBlock(f.size)))
    else Node(f.name, f.size, if h == 0 then [] else Kids(s, loc, h - 1, NKids(s, loc)))
  }

  /** The trees of the named records among the first `q`. */
  function Kids(s: Fs, loc: Loc, h: nat, q: int): seq<Tree>
    decreases h, if q < 0 then 1 else q + 1
  {
    if q <= 0 then []
    else Kids(s, loc, h, q - 1) + if KidName(s, loc, q - 1) == "" then [] else [TreeOf(s, KidLoc(s, loc, q - 1), h)]
  }

  /** The tree has height at most `h`, and no file in it is larger than a file can be. */
  ghost predicate Whole(s: Fs, loc: Loc, h: nat)
    decreases h
  {
    && NBlock(FileAt(s, loc).size) <= NINDIRECT
    && (FileAt(s, loc).kind == Dir ==>
          h > 0 && forall q {:trigger KidLoc(s, loc, q)} ::
            0 <= q < NKids(s, loc) && KidName(s, loc, q) != "" ==> Whole(s, KidLoc(s, loc, q), h - 1))
  }

  /** No record of the tree, named or not, is at `d`. */
  ghost predicate Avoids(s: Fs, loc: Loc, h: nat, d: Loc)
    decreases h
  {
    FileAt(s, loc).kind == Dir && h > 0 ==>
      forall q {:trigger KidLoc(s, loc, q)} :: 0 <= q < NKids(s, loc) ==>
        KidLoc(s, loc, q) != d && (KidName(s, loc, q) != "" ==> Avoids(s, KidLoc(s, loc, q), h - 1, d))
  }

  // ---- how many blocks a tree can take ----

  /** For each block, one for the copy, one for a hole of the source, and an indirect block for each. */
  function Cost(t: Tree): nat {
    (if t.size >= 0 then 4 * NBlock(t.size) else 0) + if t.Leaf? then 0 else CostAll(t.kids)
  }

  function CostAll(ts: seq<Tree>): nat {
    if ts == [] then 0 else CostAll(ts[..|ts| - 1]) + Cost(ts[|ts| - 1])
  }

  lemma CostMore(ts: seq<Tree>, t: Tree)
    ensures CostAll(ts + [t]) == CostAll(ts) + Cost(t)
  {
    assert (ts + [t])[..|ts|] == ts;
  }

  // ---- growth: holes filled anywhere, and one record built up ----

  predicate SameFace(f: File, g: File) { f.name == g.name && f.size == g.size && f.kind == g.kind }

  predicate Used(s: Fs, x: Loc) { x == Root || (x.At? && InUse(s, x.blk)) }

  ghost predicate NoNames(s: Fs, p: int) {
    forall j {:trigger FileAt(s, At(p, j))} :: FileAt(s, At(p, j)).name == "" && FileAt(s, At(p, j)).kind == Reg
  }

  ghost predicate GrowCell(s: Fs, s': Fs, x: Loc, k: int) {
    var p, p' := PtrOf(s, x, k), PtrOf(s', x, k);
    && (p != 0 ==> p' == p)
    && (p == 0 && p' != 0 ==> !InUse(s, p') && NoNames(s', p'))
    && (FileAt(s, x).kind == Reg ==> Cell(s', x, k) == Cell(s, x, k))
  }

  /** Every record in use but `d` keeps its name, size and type and reads the same: only holes were filled,
      with blocks that were free and hold no named record; and every block taken is in a slot. */
  ghost predicate Grow(s: Fs, s': Fs, d: Loc) {
    && |s'.blocks| == |s.blocks| && NoLeak(s, s', 0)
    && (forall b {:trigger InUse(s', b)} :: InUse(s, b) ==> InUse(s', b))
    && (forall x {:trigger Live(s', x)} :: Live(s, x) ==> Live(s', x))
    && (forall x {:trigger FileAt(s', x)} :: x != d && Used(s, x) ==> SameFace(FileAt(s, x), FileAt(s', x)))
    && (forall x, k {:trigger PtrOf(s', x, k)} :: x != d && Used(s, x) ==> GrowCell(s, s', x, k))
  }

  lemma FilledGrow(s: Fs, s': Fs, loc: Loc, i: int, d: Loc)
    requires Filled(s, s', loc, i)
    ensures Grow(s, s', d)
  {
    forall x, k ensures GrowCell(s, s', x, k) {
      assert PtrOf(s', x, k) == PtrOf(s, x, k) || (x == loc && k == i && PtrOf(s, x, k) == 0);
      assert FileAt(s, x).kind == Reg ==> Cell(s', x, k) == Cell(s, x, k);
      if PtrOf(s', x, k) != PtrOf(s, x, k) { ZeroNames(s', loc, i); }
    }
    hide PtrOf, FileAt, Cell, GrowCell;
  }

  lemma GrowWider(s: Fs, s': Fs, d: Loc)
    requires Grow(s, s', Null)
    ensures Grow(s, s', d)
  {
    forall x, k | x != d && Used(s, x) ensures GrowCell(s, s', x, k) { GrowCellAt(s, s', x, k); }
  }

  lemma GrowCellAt(s: Fs, s': Fs, x: Loc, k: int)
    requires Grow(s, s', Null) && Used(s, x)
    ensures GrowCell(s, s', x, k)
  {
    var p := PtrOf(s', x, k);
  }

  lemma ZeroNames(s: Fs, loc: Loc, i: int)
    requires Cell(s, loc, i) == Zero
    ensures NoNames(s, PtrOf(s, loc, i))
  {}

  /** Growing one record, then one in a block it got meanwhile (or the same one, or none). */
  lemma GrowThen(s: Fs, s1: Fs, s2: Fs, o1: Owner, d: Loc, d': Loc)
    requires Grow(s, s1, d) && Grow(s1, s2, d') && Owned(s1, o1) && (d == Null || Used(s, d))
    requires d' == d || d' == Null || (d'.At? && !InUse(s, d'.blk) &&
      forall x, k {:trigger PtrOf(s1, x, k)} :: x != d && Used(s, x) ==> PtrOf(s1, x, k) != d'.blk)
    ensures Grow(s, s2, d)
  {
    forall x, k | x != d && Used(s, x) ensures GrowCell(s, s2, x, k) {
      GrowCellThen(s, s1, s2, o1, d, d', x, k);
    }
    hide PtrOf, FileAt, Cell, GrowCell, Owned;
    forall x | x != d && Used(s, x) ensures SameFace(FileAt(s, x), FileAt(s2, x)) {
      assert x.At? ==> InUse(s1, x.blk);
      assert SameFace(FileAt(s, x), FileAt(s1, x));
    }
    LeakThen(s, s1, s2, 0);
    hide NoLeak;
    forall b | InUse(s, b) ensures InUse(s2, b) { assert InUse(s1, b); }
    forall x | Live(s, x) ensures Live(s2, x) { assert Live(s1, x); }
  }

  lemma GrowCellThen(s: Fs, s1: Fs, s2: Fs, o1: Owner, d: Loc, d': Loc, x: Loc, k: int)
    requires Grow(s, s1, d) && Grow(s1, s2, d') && Owned(s1, o1) && (d == Null || Used(s, d))
    requires d' == d || d' == Null || (d'.At? && x != d' && PtrOf(s1, x, k) != d'.blk)
    requires x != d && Used(s, x)
    ensures GrowCell(s, s2, x, k)
  {
    var p1 := PtrOf(s1, x, k);
    assert x.At? ==> InUse(s1, x.blk);
    assert Used(s1, x) && x != d';
    assert GrowCell(s, s1, x, k) && GrowCell(s1, s2, x, k);
    assert p1 != 0 ==> InUse(s1, p1);
    hide Owned, Cell, PtrOf;
    if p1 != 0 {
      if PtrOf(s, x, k) == 0 {
        forall j ensures FileAt(s2, At(p1, j)).name == "" && FileAt(s2, At(p1, j)).kind == Reg {
          assert At(p1, j) != d' by { assert d' == d ==> !InUse(s, p1); }
          assert SameFace(FileAt(s1, At(p1, j)), FileAt(s2, At(p1, j)));
        }
      }
    } else if PtrOf(s2, x, k) != 0 && PtrOf(s, x, k) == 0 {
      assert InUse(s, PtrOf(s2, x, k)) ==> InUse(s1, PtrOf(s2, x, k));
    }
  }

  // ---- trees that growth elsewhere leaves alone ----

  /** A record of a directory stays where it is and keeps its face; a filled hole brings no named record. */
  lemma KidGrow(s: Fs, s': Fs, owner: Owner, d: Loc, loc: Loc, q: int)
    requires Inv(s, owner) && Grow(s, s', d) && loc != d && Used(s, loc) && KidLoc(s, loc, q) != d
    ensures KidName(s', loc, q) == KidName(s, loc, q)
    ensures PtrOf(s, loc, q / FILE2BLK) != 0 ==> KidLoc(s', loc, q) == KidLoc(s, loc, q) && Used(s, KidLoc(s, loc, q))
    ensures PtrOf(s, loc, q / FILE2BLK) == 0 ==> KidName(s, loc, q) == ""
    ensures Used(s, KidLoc(s, loc, q)) || !Used(s, KidLoc(s', loc, q))
    ensures PtrOf(s, loc, q / FILE2BLK) == 0 ==> PtrOf(s', loc, q / FILE2BLK) == 0 || !Used(s, KidLoc(s', loc, q))
  {
    var k := q / FILE2BLK;
    assert GrowCell(s, s', loc, k);
    assert PtrOf(s, loc, k) != 0 ==> InUse(s, PtrOf(s, loc, k));
    assert SameFace(FileAt(s, KidLoc(s, loc, q)), FileAt(s', KidLoc(s, loc, q))) || !Used(s, KidLoc(s, loc, q));
    hide Inv, GrowCell, PtrOf, Cell;
  }

  lemma CellsSame(s: Fs, s': Fs, loc: Loc, n: int)
    requires forall i {:trigger Cell(s', loc, i)} :: 0 <= i < n ==> Cell(s', loc, i) == Cell(s, loc, i)
    ensures Cells(s', loc, n) == Cells(s, loc, n)
  {}

  /** A tree that does not contain `d` is the same tree after growth at `d`. */
  lemma {:induction false} TreeGrow(s: Fs, s': Fs, owner: Owner, d: Loc, loc: Loc, h: nat)
    requires Inv(s, owner) && Grow(s, s', d) && loc != d && Used(s, loc)
    requires Whole(s, loc, h) && Avoids(s, loc, h, d)
    ensures TreeOf(s', loc, h) == TreeOf(s, loc, h) && Whole(s', loc, h)
    decreases h, 0
  {
    assert SameFace(FileAt(s, loc), FileAt(s', loc));
    if FileAt(s, loc).kind == Reg {
      forall i ensures Cell(s', loc, i) == Cell(s, loc, i) { assert GrowCell(s, s', loc, i); }
      CellsSame(s, s', loc, NBlock(FileAt(s, loc).size));
    } else {
      hide Inv, Grow, FileAt, PtrOf, Cells;
      KidsGrow(s, s', owner, d, loc, h, NKids(s, loc));
      forall q | 0 <= q < NKids(s, loc) && KidName(s', loc, q) != "" ensures Whole(s', KidLoc(s', loc, q), h - 1) {
        assert KidLoc(s, loc, q) != d;
        KidGrow(s, s', owner, d, loc, q);
        TreeGrow(s, s', owner, d, KidLoc(s, loc, q), h - 1);
      }
    }
  }

  lemma {:induction false} KidsGrow(s: Fs, s': Fs, owner: Owner, d: Loc, loc: Loc, h: nat, n: int)
    requires Inv(s, owner) && Grow(s, s', d) && loc != d && Used(s, loc)
    requires FileAt(s, loc).kind == Dir && Whole(s, loc, h) && Avoids(s, loc, h, d) && n <= NKids(s, loc)
    ensures Kids(s', loc, h - 1, n) == Kids(s, loc, h - 1, n)
    decreases h - 1, if n < 0 then 1 else n + 1
  {
    hide Inv, Grow, FileAt, PtrOf, Cells, TreeOf;
    if n > 0 {
      KidsGrow(s, s', owner, d, loc, h, n - 1);
      assert KidLoc(s, loc, n - 1) != d;
      KidGrow(s, s', owner, d, loc, n - 1);
      if KidName(s, loc, n - 1) != "" {
        TreeGrow(s, s', owner, d, KidLoc(s, loc, n - 1), h - 1);
      }
    }
  }

  /** What a tree avoided it still avoids. */
  lemma {:induction false} AvoidsGrow(s: Fs, s': Fs, owner: Owner, d: Loc, loc: Loc, h: nat, x: Loc)
    requires Inv(s, owner) && Grow(s, s', d) && loc != d && Used(s, loc)
    requires Avoids(s, loc, h, d) && Avoids(s, loc, h, x) && Used(s, x)
    ensures Avoids(s', loc, h, x)
    decreases h
  {
    assert SameFace(FileAt(s, loc), FileAt(s', loc));
    if FileAt(s, loc).kind == Dir && h > 0 {
      forall q | 0 <= q < NKids(s, loc)
        ensures KidLoc(s', loc, q) != x && (KidName(s', loc, q) != "" ==> Avoids(s', KidLoc(s', loc, q), h - 1, x))
      {
        assert KidLoc(s, loc, q) != d && KidLoc(s, loc, q) != x;
        KidGrow(s, s', owner, d, loc, q);
        if KidName(s, loc, q) != "" { AvoidsGrow(s, s', owner, d, KidLoc(s, loc, q), h - 1, x); }
        else if PtrOf(s, loc, q / FILE2BLK) == 0 && PtrOf(s', loc, q / FILE2BLK) == 0 { assert !InUse(s, 0); }
      }
    }
  }

  /** A tree without `d` has no record in a block that `d` holds. */
  lemma {:induction false} AvoidsHeld(s: Fs, owner: Owner, loc: Loc, h: nat, d: Loc, k: int, j: int)
    requires Inv(s, owner) && loc != d && Avoids(s, loc, h, d) && PtrOf(s, d, k) != 0
    ensures Avoids(s, loc, h, At(PtrOf(s, d, k), j))
    decreases h
  {
    if FileAt(s, loc).kind == Dir && h > 0 {
      forall q | 0 <= q < NKids(s, loc)
        ensures KidLoc(s, loc, q) != At(PtrOf(s, d, k), j)
        ensures KidName(s, loc, q) != "" ==> Avoids(s, KidLoc(s, loc, q), h - 1, At(PtrOf(s, d, k), j))
      {
        assert KidLoc(s, loc, q) != d;
        if KidLoc(s, loc, q) == At(PtrOf(s, d, k), j) { SameCell(s, owner, loc, q / FILE2BLK, d, k); }
        if KidName(s, loc, q) != "" { AvoidsHeld(s, owner, KidLoc(s, loc, q), h - 1, d, k, j); }
      }
    }
  }

  /** No record sits nowhere. */
  lemma {:induction false} AvoidsNull(s: Fs, loc: Loc, h: nat)
    ensures Avoids(s, loc, h, Null)
    decreases h
  {
    if FileAt(s, loc).kind == Dir && h > 0 {
      forall q | 0 <= q < NKids(s, loc) && KidName(s, loc, q) != "" ensures Avoids(s, KidLoc(s, loc, q), h - 1, Null) {
        AvoidsNull(s, KidLoc(s, loc, q), h - 1);
      }
    }
  }
}
