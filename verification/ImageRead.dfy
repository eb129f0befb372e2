/**
  The image read back by the file server (tools/fsformat.c, fs/fs.c): what went in comes out.
 */
module ImageRead {
  import opened FsModel
  import opened FsOps
  import opened FsServer
  import opened FsFile
  import opened FsTree
  import opened FsDir
  import opened Image
  import opened ImageBuilder
  import FsStale

  function Min(a: int, b: int): int { if a < b then a else b }

  /** One more block of a file's bytes. */
  lemma MoreBytes(bytes: seq<bv8>, i: int)
    requires 0 <= i < NBlock(|bytes|)
    ensures var lo, hi := i * BY2BLK, Min((i + 1) * BY2BLK, |bytes|);
      0 <= lo < hi <= |bytes| && hi - lo <= BY2BLK && bytes[..lo] + Chunk(bytes, i)[..hi - lo] == bytes[..hi]
  {
    var lo, hi := i * BY2BLK, Min((i + 1) * BY2BLK, |bytes|);
    var part := Chunk(bytes, i)[..hi - lo];
    forall k | 0 <= k < hi - lo ensures part[k] == bytes[lo + k] {}
  }

  /** All blocks of a regular file, up to its size. */
  method ReadBytes(m: Server, x: Loc, ghost name: string, ghost bytes: seq<bv8>) returns (read: seq<bv8>)
    requires m.Valid() && m.Handle(x) && WrittenAt(m.V(), x, name, bytes)
    modifies m
    ensures m.Valid() && m.V() == old(m.V()) && m.Handle(x) && old(m.cache.Keys) <= m.cache.Keys
    ensures read == bytes
  {
    m.Handled(x);
    var size := m.Get(x).size;
    assert size == |bytes|;
    ghost var s := m.V();
    hide Inv, FileAt, Live, WrittenAt, Chunk;
    read := [];
    var i := 0;
    while i < NBlock(size)
      invariant 0 <= i <= NBlock(size) && size == |bytes|
      invariant m.Valid() && m.V() == s && m.Handle(x) && old(m.cache.Keys) <= m.cache.Keys
      invariant read == bytes[..Min(i * BY2BLK, size)]
    {
      var bno := ReadFile(m, x, name, bytes, i);
      MoreBytes(bytes, i);
      read := read + m.cache[bno].bytes[..Min((i + 1) * BY2BLK, size) - i * BY2BLK];
      i := i + 1;
    }
    assert bytes[..|bytes|] == bytes;
  }

  /** Record `q` of a directory, through the cache. */
  method ReadRecord(m: Server, dir: Loc, q: int) returns (x: Loc)
    requires m.Valid() && m.Handle(dir) && FileAt(m.V(), dir).kind == Dir && q >= 0
    requires PtrOf(m.V(), dir, q / FILE2BLK) != 0
    modifies m
    ensures m.Valid() && m.V() == old(m.V()) && old(m.cache.Keys) <= m.cache.Keys && m.Handle(dir)
    ensures x == KidLoc(m.V(), dir, q) && m.Cached(x) && m.Get(x) == FileAt(m.V(), x)
    ensures FileAt(m.V(), x).name != "" ==> m.Handle(x)
  {
    var r, bno := FileMapBlock(m, dir, q / FILE2BLK, false);
    m.ReadBlock(bno);
    KidCached(m, dir, q / FILE2BLK, q % FILE2BLK);
    return At(bno, q % FILE2BLK);
  }

  /** Every named record of a directory, read with all that is under it. */
  method ReadEntries(m: Server, dir: Loc, ghost es: seq<Host>) returns (read: seq<Host>)
    requires m.Valid() && m.Handle(dir) && FileAt(m.V(), dir).kind == Dir && Packed(m.V(), dir, |es|)
    requires Entries(m.V(), dir, es, |es|) && NoGaps(m.V())
    modifies m
    ensures m.Valid() && m.V() == old(m.V()) && m.Handle(dir) && old(m.cache.Keys) <= m.cache.Keys
    ensures read == es
    decreases es, 1
  {
    m.Handled(dir);
    var nkids := m.Get(dir).size / BY2BLK * FILE2BLK;
    ghost var s := m.V();
    PackedBlocks(s, dir, |es|);
    FullOf(s, dir);
    hide Inv, FileAt, Live, Packed, Entries, Full, KidLoc, NoGaps, PtrOf, HostAt, KidName;
    read := [];
    var q := 0;
    while q < nkids
      invariant 0 <= q <= nkids && read == es[..Min(q, |es|)]
      invariant m.Valid() && m.V() == s && m.Handle(dir) && old(m.cache.Keys) <= m.cache.Keys
    {
      FullAt(s, dir, q);
      EntryAt(s, dir, es, q);
      var more, e := ReadEntry(m, dir, q, es);
      OneMore(es, q);
      if more { read := read + [e]; }
      q := q + 1;
    }
  }

  lemma OneMore(es: seq<Host>, q: nat)
    ensures es[..Min(q + 1, |es|)] == es[..Min(q, |es|)] + if q < |es| then [es[q]] else []
  {}

  method ReadEntry(m: Server, dir: Loc, q: int, ghost es: seq<Host>) returns (more: bool, e: Host)
    requires m.Valid() && m.Handle(dir) && FileAt(m.V(), dir).kind == Dir && NoGaps(m.V())
    requires q >= 0 && PtrOf(m.V(), dir, q / FILE2BLK) != 0
    requires (FileAt(m.V(), KidLoc(m.V(), dir, q)).name != "" <==> q < |es|)
    requires q < |es| ==> HostAt(m.V(), KidLoc(m.V(), dir, q), es[q])
    modifies m
    ensures m.Valid() && m.V() == old(m.V()) && m.Handle(dir) && old(m.cache.Keys) <= m.cache.Keys
    ensures more <==> q < |es|
    ensures more ==> e == es[q]
    decreases es, 0
  {
    hide Inv, FileAt, Live, HostAt, NoGaps, KidLoc, PtrOf;
    var x := ReadRecord(m, dir, q);
    more, e := m.Get(x).name != "", HFile("", []);
    if more { e := ReadHost(m, x, es[q]); }
  }

  /** The blocks of a directory are there. */
  ghost predicate Full(s: Fs, dir: Loc) {
    forall q {:trigger KidLoc(s, dir, q)} :: 0 <= q < FileAt(s, dir).size / BY2BLK * FILE2BLK ==>
      PtrOf(s, dir, q / FILE2BLK) != 0
  }

  lemma FullAt(s: Fs, dir: Loc, q: int)
    requires Full(s, dir) && 0 <= q < FileAt(s, dir).size / BY2BLK * FILE2BLK
    ensures PtrOf(s, dir, q / FILE2BLK) != 0
  {
    var x := KidLoc(s, dir, q);
    hide FileAt, PtrOf, KidLoc;
  }

  /** The records with names are those of the entries. */
  lemma EntryAt(s: Fs, dir: Loc, es: seq<Host>, q: int)
    requires Packed(s, dir, |es|) && Entries(s, dir, es, |es|) && 0 <= q < FileAt(s, dir).size / BY2BLK * FILE2BLK
    ensures FileAt(s, KidLoc(s, dir, q)).name != "" <==> q < |es|
    ensures q < |es| ==> HostAt(s, KidLoc(s, dir, q), es[q])
  {
    PackedBlocks(s, dir, |es|);
    var x := KidName(s, dir, q);
    hide FileAt, KidLoc, HostAt;
  }

  lemma FullOf(s: Fs, x: Loc)
    requires NoGaps(s) && FileAt(s, x).kind == Dir
    ensures Full(s, x)
  {
    hide FileAt, PtrOf, KidLoc, IndsUsed;
    forall q | 0 <= q < FileAt(s, x).size / BY2BLK * FILE2BLK ensures PtrOf(s, x, q / FILE2BLK) != 0 {
      assert 0 <= q / FILE2BLK < FileAt(s, x).size / BY2BLK;
    }
  }

  lemma HostIs(s: Fs, x: Loc, e: Host)
    requires HostAt(s, x, e)
    ensures FileAt(s, x).name == e.name && (FileAt(s, x).kind == Reg <==> e.HFile?)
    ensures e.HFile? ==> WrittenAt(s, x, e.name, e.bytes)
    ensures e.HDir? ==> Packed(s, x, |e.entries|) && Entries(s, x, e.entries, |e.entries|)
  {
  }

  /** A file or directory, with all that is under it. */
  method ReadHost(m: Server, x: Loc, ghost e: Host) returns (read: Host)
    requires m.Valid() && m.Handle(x) && HostAt(m.V(), x, e) && NoGaps(m.V())
    modifies m
    ensures m.Valid() && m.V() == old(m.V()) && m.Handle(x) && old(m.cache.Keys) <= m.cache.Keys
    ensures read == e
    decreases e
  {
    m.Handled(x);
    var f := m.Get(x);
    HostIs(m.V(), x, e);
    hide Inv, FileAt, Live, Packed, Entries, HostAt, NoGaps, WrittenAt;
    if f.kind == Reg {
      var bytes := ReadBytes(m, x, e.name, e.bytes);
      return HFile(f.name, bytes);
    } else {
      var entries := ReadEntries(m, x, e.entries);
      return HDir(f.name, entries);
    }
  }

  /**
    The whole way: the builder's image of `hosts`, booted, and every file of it read back by the server. The
    builder stops exactly when the blocks do not suffice or a file is larger than a record can describe.
   */
  method BuildAndRead(hosts: seq<Host>) returns (ok: bool, read: seq<Host>)
    requires forall j :: 0 <= j < |hosts| ==> Names(hosts[j])
    ensures ok <==> FitAll(hosts, 3)
    ensures ok ==> read == hosts
  {
    read := [];
    var b;
    ok, b := Build(hosts);
    if !ok { return; }
    assert Live(b.V(), Root) && NoGaps(b.V());
    hide Inv, FileAt, Packed, Entries, NoGaps, FitAll;
    var m := Boot(b);
    read := ReadEntries(m, Root, hosts);
  }

  // ---- a record used twice ----

  /** The root of an image, not all of its records taken. */
  lemma SpareRecord(s: Fs, hosts: seq<Host>, name: string)
    requires Packed(s, Root, |hosts|) && Entries(s, Root, hosts, |hosts|) && NoGaps(s) && FileAt(s, Root).kind == Dir
    requires forall j :: 0 <= j < |hosts| ==> hosts[j].name != name
    ensures Solid(s, Root)
    ensures |hosts| % FILE2BLK != 0 ==> Present(s, Root, "")
    ensures name != "" ==> !Present(s, Root, name)
  {
    PackedBlocks(s, Root, |hosts|);
    hide FileAt, PtrOf, IndsUsed, KidLoc;
    var x := KidName(s, Root, |hosts|);
    forall q | 0 <= q < NKids(s, Root) && name != "" ensures KidName(s, Root, q) != name {
      EntryAt(s, Root, hosts, q);
      if q < |hosts| { HostIs(s, KidLoc(s, Root, q), hosts[q]); }
    }
  }

  method BuildAndBoot(hosts: seq<Host>) returns (m: Server)
    requires (forall j :: 0 <= j < |hosts| ==> Names(hosts[j])) && FitAll(hosts, 3)
    ensures fresh(m) && DirHandle(m, Root) && NoGaps(m.V())
    ensures Packed(m.V(), Root, |hosts|) && Entries(m.V(), Root, hosts, |hosts|)
  {
    var ok, d := Build(hosts);
    assert Live(d.V(), Root) && NoGaps(d.V()) && Named(d.V(), Root);
    hide Inv, FileAt, Packed, Entries, NoGaps, FitAll;
    m := Boot(d);
  }

  /**
    From the host's files on: build the image, boot, mkdir a, remove a, and open b with O_CREAT in the root; the
    new "file" is a directory, whatever the image holds. `s` has the states from the booted image on.
   */
  method StaleOnImage(hosts: seq<Host>, a: string, b: string)
    returns (m: Server, file: Loc, ghost s: seq<Fs>, ghost q: int)
    requires (forall j :: 0 <= j < |hosts| ==> Names(hosts[j])) && FitAll(hosts, 3) && |hosts| % FILE2BLK != 0
    requires a != "" && b != "" && forall j :: 0 <= j < |hosts| ==> hosts[j].name != a && hosts[j].name != b
    ensures |s| == 4 && Packed(s[0], Root, |hosts|) && Entries(s[0], Root, hosts, |hosts|)
    ensures FsStale.MadeDir(s[0], s[1], Root, file, a, q) && Removed(s[1], s[2], file)
    ensures Created(s[2], s[3], Root, file, b)
    ensures m.Valid() && m.V() == s[3] && FileAt(s[3], file).name == b && FileAt(s[3], file).kind == Dir
  {
    m := BuildAndBoot(hosts);
    SpareRecord(m.V(), hosts, a);
    SpareRecord(m.V(), hosts, b);
    hide *;
    ghost var s0 := m.V();
    ghost var s1, s2;
    var r;
    r, file, s1, s2, q := FsStale.StaleDirectory(m, Root, a, b);
    s := [s0, s1, s2, m.V()];
  }
}
