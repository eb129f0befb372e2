/**
  Loading one ELF segment page by page (lib/elfloader.c, with load_icode_mapper of kern/env.c): the part that
  comes from the file, which may begin anywhere in its first page, and then zeros up to the segment's size in
  memory. The exact condition for loading it as intended, and what is lost otherwise.
 */
module ElfLoader {

  type Byte = bv8
  const BY2PG := 4096
  const E_NO_MEM := 4

  datatype Page = Page(bytes: seq<Byte>, writable: bool)

  // The source of a mapping: no bytes, or those to copy in.
  datatype Src = NoSrc | From(bytes: seq<Byte>)

  function SrcBytes(src: Src): seq<Byte> { if src.From? then src.bytes else [] }

  /** A zeroed page with bytes copied in at an offset. */
  function Filled(offset: int, b: seq<Byte>): (r: seq<Byte>)
    ensures |r| == BY2PG
    ensures forall j :: 0 <= j < BY2PG ==> r[j] == if offset <= j < offset + |b| then b[j - offset] else 0
  {
    seq(BY2PG, j => if offset <= j < offset + |b| then b[j - offset] else 0)
  }

  /** Pages p, p+1, ... in order. */
  function Range(p: int, n: int): (r: seq<int>)
    decreases n
    ensures |r| == if n < 0 then 0 else n
    ensures forall i :: 0 <= i < n ==> r[i] == p + i
  {
    if n <= 0 then [] else Range(p, n - 1) + [p + n - 1]
  }

  /** What page `q` of the segment should hold: the file's bytes where it has them, and zeros. */
  function Content(va: int, bin: seq<Byte>, q: int): (r: seq<Byte>)
    ensures |r| == BY2PG
    ensures forall j :: 0 <= j < BY2PG ==>
              r[j] == if 0 <= q * BY2PG + j - va < |bin| then bin[q * BY2PG + j - va] else 0
  {
    seq(BY2PG, j => if 0 <= q * BY2PG + j - va < |bin| then bin[q * BY2PG + j - va] else 0)
  }

  /** From `old` to `mem`, exactly the pages p..p+n-1 were mapped, with the contents of `bin`. */
  ghost predicate Seg(mem: map<int, Page>, was: map<int, Page>, p: int, n: int, va: int, bin: seq<Byte>, w: bool) {
    forall q :: if p <= q < p + n then q in mem && mem[q] == Page(Content(va, bin, q), w)
                else (q in mem <==> q in was) && (q in mem ==> mem[q] == was[q])
  }

  function Max(a: int, b: int): int { if a >= b then a else b }
  function Min(a: int, b: int): int { if a <= b then a else b }

  /** The branch that goes right: the file's part starts on a page boundary, or reaches the end of its first
      page, or there is nothing to clear after it. */
  predicate Guard(va: int, filesz: int, memsz: int) {
    va % BY2PG == 0 || filesz >= BY2PG - va % BY2PG || memsz <= filesz
  }

  /** The number of pages from va's page to the end; an unaligned first page is always mapped. */
  function NPages(va: int, size: int): int {
    var n := (va % BY2PG + size + BY2PG - 1) / BY2PG;
    if va % BY2PG != 0 && n < 1 then 1 else n
  }

  /** The pages of the part to be cleared, when that is counted from the end of the file's bytes. */
  function ZeroPages(filesz: int, memsz: int): int { (memsz - filesz + BY2PG - 1) / BY2PG }

  /** The pages that elf_load_seg maps, in order. */
  function SegPages(va: int, filesz: int, memsz: int): seq<int> {
    var p := va / BY2PG;
    if Guard(va, filesz, memsz) then Range(p, NPages(va, Max(filesz, memsz)))
    else [p] + Range(p, ZeroPages(filesz, memsz))
  }

  /** The memory reads as the segment: the file's bytes and then zeros, and no page was mapped twice. */
  ghost predicate Exact(mem: map<int, Page>, pages: seq<int>, va: int, bin: seq<Byte>, memsz: int) {
    && (forall k {:trigger SegByte(mem, va, k)} ::
          0 <= k < Max(|bin|, memsz) ==> SegByte(mem, va, k) == Some(if k < |bin| then bin[k] else 0))
    && (forall i, j :: 0 <= i < j < |pages| ==> pages[i] != pages[j])
  }

  datatype Read = Fault | Some(b: Byte)

  function ByteAt(mem: map<int, Page>, a: int): Read {
    if a / BY2PG in mem && |mem[a / BY2PG].bytes| == BY2PG then Some(mem[a / BY2PG].bytes[a % BY2PG]) else Fault
  }

  /** One more page at the end. */
  lemma SegMore(mem: map<int, Page>, was: map<int, Page>, p: int, n: int, va: int, bin: seq<Byte>, w: bool)
    requires Seg(mem, was, p, n, va, bin, w) && n >= 0
    ensures Seg(mem[p + n := Page(Content(va, bin, p + n), w)], was, p, n + 1, va, bin, w)
  {}

  /** The first page once more, with nothing in it. */
  lemma SegAgain(mem: map<int, Page>, was: map<int, Page>, p: int, va: int, bin: seq<Byte>, w: bool)
    requires Seg(mem, was, p, 1, va, bin, w)
    ensures Seg(mem[p := Page(Content(va, [], p), w)], was, p, 1, va, [], w)
  {}

  /** What the mapper copies is what the page should hold. */
  lemma FirstContent(va: int, bin: seq<Byte>)
    requires va >= 0
    ensures var o := va % BY2PG; Filled(o, bin[..Min(|bin|, BY2PG - o)]) == Content(va, bin, va / BY2PG)
  {}

  lemma NextContent(va: int, bin: seq<Byte>, i: int, q: int)
    requires va + i == q * BY2PG && 0 <= i
    ensures Filled(0, if i < |bin| then bin[i..i + Min(|bin| - i, BY2PG)] else []) == Content(va, bin, q)
  {}

  lemma NoContent(va: int, q: int)
    ensures Content(va, [], q) == Filled(0, [])
  {}

  function SegByte(mem: map<int, Page>, va: int, k: int): Read { ByteAt(mem, va + k) }

  const NPTE := 1024

  // ---- free pages ----

  function Elems(ps: seq<int>): set<int> { set q | q in ps }
  function Table(q: int): int { q / NPTE }
  function TablesOf(ps: seq<int>): set<int> { set q | q in ps :: Table(q) }

  /** The free pages that mapping `ps` in order uses up: a page and a table where they are not there yet. */
  function Taken(ps: seq<int>, mem: set<int>, tables: set<int>): nat {
    if ps == [] then 0 else
      var init, q := ps[..|ps| - 1], ps[|ps| - 1];
      Taken(init, mem, tables) + (if q in mem + Elems(init) then 0 else 1)
        + (if Table(q) in tables + TablesOf(init) then 0 else 1)
  }

  /** `room` free pages cover the mapping of `ps`: each page is taken before the one it replaces goes back. */
  predicate Cover(ps: seq<int>, mem: set<int>, tables: set<int>, room: nat) {
    ps == [] ||
    var init, q := ps[..|ps| - 1], ps[|ps| - 1];
    && Cover(init, mem, tables, room)
    && room >= Taken(init, mem, tables) + if Table(q) in tables + TablesOf(init) then 1 else 2
  }

  /** The state after `ps` has been mapped. */
  ghost predicate Took(ps: seq<int>, mem0: set<int>, tables0: set<int>, room0: nat, mem: set<int>, tables: set<int>,
                       room: nat)
  {
    && Cover(ps, mem0, tables0, room0) && room == room0 - Taken(ps, mem0, tables0)
    && mem == mem0 + Elems(ps) && tables == tables0 + TablesOf(ps)
  }

  /** One page more, or none is to be had. */
  lemma TookMore(ps: seq<int>, q: int, mem0: set<int>, tables0: set<int>, room0: nat, mem: set<int>,
                 tables: set<int>, room: nat)
    requires Took(ps, mem0, tables0, room0, mem, tables, room) && (q in mem ==> Table(q) in tables)
    ensures var need := if Table(q) in tables then 1 else 2;
      if room < need then !Cover(ps + [q], mem0, tables0, room0)
      else Took(ps + [q], mem0, tables0, room0, mem + {q}, tables + {Table(q)},
                room - need + if q in mem then 1 else 0)
  {
    var all := ps + [q];
    assert all[..|all| - 1] == ps && Elems(all) == Elems(ps) + {q};
    TablesMore(ps, q);
  }

  lemma TablesMore(ps: seq<int>, q: int)
    ensures TablesOf(ps + [q]) == TablesOf(ps) + {Table(q)}
  {
    var all := ps + [q];
    assert forall p :: p in all <==> p in ps || p == q;
    hide Table;
    forall x | x in TablesOf(ps) ensures x in TablesOf(all) {
      var p :| p in ps && Table(p) == x;
      assert p in all;
    }
    assert q in all;
  }

  lemma {:induction false} CoverPrefix(ps: seq<int>, n: nat, mem: set<int>, tables: set<int>, room: nat)
    requires n <= |ps| && Cover(ps, mem, tables, room)
    ensures Cover(ps[..n], mem, tables, room)
    decreases |ps|
  {
    if n < |ps| {
      var init := ps[..|ps| - 1];
      CoverPrefix(init, n, mem, tables, room);
      assert init[..n] == ps[..n];
    } else {
      assert ps[..n] == ps;
    }
  }

  /** For pages not mapped before, each once: a page for every one of them and for every table that is missing. */
  lemma {:induction false} CoverNew(ps: seq<int>, mem: set<int>, tables: set<int>, room: nat)
    requires (forall q :: q in ps ==> q !in mem) && forall i, j :: 0 <= i < j < |ps| ==> ps[i] != ps[j]
    ensures Taken(ps, mem, tables) == |ps| + |TablesOf(ps) - tables|
    ensures Cover(ps, mem, tables, room) <==> room >= |ps| + |TablesOf(ps) - tables|
  {
    if ps != [] {
      var init, q := ps[..|ps| - 1], ps[|ps| - 1];
      CoverNew(init, mem, tables, room);
      assert q !in init && init + [q] == ps && q in ps;
      NewTable(init, q, tables);
      LastPage(ps, mem, tables, room);
      hide *;
    } else {
      assert TablesOf(ps) - tables == {};
    }
  }

  lemma LastPage(ps: seq<int>, mem: set<int>, tables: set<int>, room: nat)
    requires ps != [] && ps[|ps| - 1] !in mem && ps[|ps| - 1] !in ps[..|ps| - 1]
    ensures var init, q := ps[..|ps| - 1], ps[|ps| - 1];
      var more := if Table(q) in tables + TablesOf(init) then 1 else 2;
      && Taken(ps, mem, tables) == Taken(init, mem, tables) + more
      && (Cover(ps, mem, tables, room) <==> Cover(init, mem, tables, room) && room >= Taken(init, mem, tables) + more)
  {
    hide TablesOf, Table;
  }

  lemma NewTable(init: seq<int>, q: int, tables: set<int>)
    ensures |TablesOf(init + [q]) - tables|
      == |TablesOf(init) - tables| + if Table(q) in tables + TablesOf(init) then 0 else 1
  {
    TablesMore(init, q);
    hide TablesOf, Table;
    var t, t' := TablesOf(init), TablesOf(init + [q]);
    if Table(q) in tables + t {
      assert t' - tables == t - tables;
    } else {
      assert t' - tables == (t - tables) + {Table(q)};
    }
  }

  /** Some first pages of the list were mapped, with the tables they need, and no other page was touched. */
  ghost predicate Partly(mem: map<int, Page>, tables: set<int>, was: map<int, Page>, tables0: set<int>,
                         done: seq<int>, all: seq<int>)
  {
    && done <= all && tables == tables0 + TablesOf(done) && mem.Keys == was.Keys + Elems(done)
    && Kept(mem, was, done)
  }

  ghost predicate Kept(mem: map<int, Page>, was: map<int, Page>, done: seq<int>) {
    forall q :: q in mem && q !in done ==> q in was && mem[q] == was[q]
  }

  lemma KeptMore(mem: map<int, Page>, was: map<int, Page>, done: seq<int>, p: int, page: Page)
    requires Kept(mem, was, done)
    ensures Kept(mem[p := page], was, done + [p])
  {}

  lemma PartlyNow(mem: map<int, Page>, tables: set<int>, was: map<int, Page>, tables0: set<int>, room0: nat,
                  done: seq<int>, all: seq<int>, room: nat)
    requires Kept(mem, was, done) && Took(done, was.Keys, tables0, room0, mem.Keys, tables, room)
    requires |done| <= |all| && all[..|done|] == done
    ensures Partly(mem, tables, was, tables0, done, all)
  {}

  /**
    The address space of an environment being loaded: its pages, which it alone maps, the page directory entries
    that have a table, the free pages of the machine, and the pages mapped so far, in order.
   */
  class Space {
    var mem: map<int, Page>
    var tables: set<int>
    var room: nat
    var mapped: seq<int>

    ghost predicate Valid()
      reads this
    { forall q :: q in mem ==> Table(q) in tables }

    /**
      load_icode_mapper: a fresh page in place of whatever was there, whose page goes back; the table it needs is
      made if it is missing. Without a page, or without one for the table, nothing is mapped.
     */
    method MapPage(va: int, offset: int, writable: bool, src: Src) returns (r: int)
      requires Valid() && 0 <= offset && offset + |SrcBytes(src)| <= BY2PG
      modifies this
      ensures Valid()
      ensures var q := va / BY2PG; var need := if Table(q) in old(tables) then 1 else 2;
        && (r == if old(room) >= need then 0 else -E_NO_MEM)
        && (r == 0 ==>
             room == old(room) - need + (if q in old(mem) then 1 else 0) && tables == old(tables) + {Table(q)})
        && (r != 0 ==> room == 0 && tables == old(tables))
      ensures r == 0 ==> mem == old(mem)[va / BY2PG := Page(Filled(offset, SrcBytes(src)), writable)]
      ensures r == 0 ==> mapped == old(mapped) + [va / BY2PG]
      ensures r != 0 ==> mem == old(mem) && mapped == old(mapped)
    {
      if room == 0 { return -E_NO_MEM; }
      room := room - 1;
      if va / BY2PG in mem {
        room := room + 1;
      } else if va / BY2PG / NPTE !in tables {
        if room == 0 { return -E_NO_MEM; }
        room := room - 1;
        tables := tables + {va / BY2PG / NPTE};
      }
      mem := mem[va / BY2PG := Page(Filled(offset, SrcBytes(src)), writable)];
      mapped := mapped + [va / BY2PG];
      return 0;
    }

    /** One turn of the loops: the next page of the list, or the list is too long for the free pages. */
    method MapNext(va: int, offset: int, writable: bool, src: Src, ghost done: seq<int>, ghost all: seq<int>,
                   ghost was: map<int, Page>, ghost tables0: set<int>, ghost room0: nat) returns (r: int)
      requires Valid() && 0 <= offset && offset + |SrcBytes(src)| <= BY2PG
      requires Took(done, was.Keys, tables0, room0, mem.Keys, tables, room) && Kept(mem, was, done)
      requires |done| < |all| && all[..|done|] == done && all[|done|] == va / BY2PG
      modifies this
      ensures Valid() && (r == 0 || r == -E_NO_MEM)
      ensures r == 0 ==>
        && mem == old(mem)[va / BY2PG := Page(Filled(offset, SrcBytes(src)), writable)]
        && mapped == old(mapped) + [va / BY2PG]
        && Took(done + [va / BY2PG], was.Keys, tables0, room0, mem.Keys, tables, room)
        && Kept(mem, was, done + [va / BY2PG])
      ensures r != 0 ==>
        mapped == old(mapped) && room == 0 && Partly(mem, tables, was, tables0, done, all)
        && !Cover(all, was.Keys, tables0, room0)
    {
      hide Filled, Took, Cover, Kept, Partly;
      Next(done, va / BY2PG, all, was.Keys, tables0, room0, mem.Keys, tables, room);
      PartlyNow(mem, tables, was, tables0, room0, done, all, room);
      KeptMore(mem, was, done, va / BY2PG, Page(Filled(offset, SrcBytes(src)), writable));
      ghost var keys := mem.Keys;
      r := MapPage(va, offset, writable, src);
      if r == 0 { assert mem.Keys == keys + {va / BY2PG}; }
    }

    /**
      elf_load_seg. It succeeds if and only if the free pages cover the pages it maps and the tables they need; then
      the segment is loaded exactly, each page once, if and only if the guard holds.
     */
    method LoadSeg(va: int, bin: seq<Byte>, memsz: int, writable: bool) returns (r: int)
      requires Valid() && va >= 0 && memsz >= 0
      modifies this
      ensures Valid()
      ensures old(mapped) <= mapped && (r != 0 ==> room == 0)
      ensures var ps := SegPages(va, |bin|, memsz);
        && (r == if Cover(ps, old(mem.Keys), old(tables), old(room)) then 0 else -E_NO_MEM)
        && (r == 0 ==> room == old(room) - Taken(ps, old(mem.Keys), old(tables)))
      ensures r == 0 ==> Loaded(mem, mapped, old(mem), old(mapped), va, bin, memsz, writable)
      ensures Partly(mem, tables, old(mem), old(tables), mapped[|old(mapped)|..], SegPages(va, |bin|, memsz))
      ensures r == 0 ==> (Exact(mem, mapped[|old(mapped)|..], va, bin, memsz) <==> Guard(va, |bin|, memsz))
    {
      hide Seg, Content, Filled, Range, Loading, Loaded, Exact, Guard, SegPages, Took, Cover, Taken, Space.Valid;
      hide Partly, Kept;
      var size := |bin|;
      var offset := va - va / BY2PG * BY2PG;
      var i := 0;
      ghost var n, m := 0, 0;
      ghost var was, tables0, room0, all := mem, tables, room, SegPages(va, |bin|, memsz);
      ghost var done: seq<int> := [];
      TookNone(was.Keys, tables, room);
      KeptNone(mem);
      Begin(mem, mapped, va, bin, memsz, writable);
      if offset != 0 {
        FirstPage(va, size, memsz);
        r := MapNext(va, offset, writable, From(bin[..Min(size, BY2PG - offset)]), done, all, was, tables0, room0);
        if r != 0 {
          assert mapped[|mapped|..] == done;
          return;
        }
        done := done + [va / BY2PG];
        i, n := Min(size, BY2PG - offset), 1;
      }
      while i < size
        invariant Valid() && 0 <= i && old(mapped) <= mapped
        invariant Loading(mem, mapped, old(mem), old(mapped), va, bin, memsz, writable, i, n, 0)
        invariant mapped == old(mapped) + done && Took(done, was.Keys, tables0, room0, mem.Keys, tables, room)
        invariant Kept(mem, was, done)
      {
        NextPage(mem, mapped, old(mem), old(mapped), va, bin, memsz, writable, i, n, 0, done);
        LoadStep(mem, mapped, old(mem), old(mapped), va, bin, memsz, writable, i, n);
        r := MapNext(va + i, 0, writable, From(bin[i..i + Min(size - i, BY2PG)]), done, all, was, tables0, room0);
        if r != 0 { return; }
        done := done + [(va + i) / BY2PG];
        i, n := i + BY2PG, n + 1;
      }
      while i < memsz
        invariant Valid() && size <= i && old(mapped) <= mapped
        invariant Loading(mem, mapped, old(mem), old(mapped), va, bin, memsz, writable, i, n, m)
        invariant mapped == old(mapped) + done && Took(done, was.Keys, tables0, room0, mem.Keys, tables, room)
        invariant Kept(mem, was, done)
      {
        NextPage(mem, mapped, old(mem), old(mapped), va, bin, memsz, writable, i, n, m, done);
        ClearStep(mem, mapped, old(mem), old(mapped), va, bin, memsz, writable, i, n, m);
        r := MapNext(va + i, 0, writable, NoSrc, done, all, was, tables0, room0);
        if r != 0 { return; }
        done := done + [(va + i) / BY2PG];
        i := i + BY2PG;
        if Misaligned(va, size) { m := m + 1; } else { n := n + 1; }
      }
      r := 0;
      End(mem, mapped, old(mem), old(mapped), va, bin, memsz, writable, i, n, m);
      Outcome(mem, mapped, old(mem), old(mapped), va, bin, memsz, writable);
      AllDone(mem, mapped, old(mem), old(mapped), va, bin, memsz, writable, done, was.Keys, tables0, room0, mem.Keys,
              tables, room);
      PartlyNow(mem, tables, was, tables0, room0, done, all, room);
    }
  }

  lemma KeptNone(mem: map<int, Page>)
    ensures Kept(mem, mem, [])
  {}

  lemma TookNone(mem: set<int>, tables: set<int>, room: nat)
    ensures Took([], mem, tables, room, mem, tables, room)
  {}

  /** The next page of the list: there is room for it, or not for the whole list. */
  lemma Next(done: seq<int>, q: int, all: seq<int>, mem0: set<int>, tables0: set<int>, room0: nat, mem: set<int>,
             tables: set<int>, room: nat)
    requires Took(done, mem0, tables0, room0, mem, tables, room) && (q in mem ==> Table(q) in tables)
    requires |done| < |all| && all[..|done|] == done && all[|done|] == q
    ensures var need := if Table(q) in tables then 1 else 2;
      if room < need then !Cover(all, mem0, tables0, room0)
      else Took(done + [q], mem0, tables0, room0, mem + {q}, tables + {Table(q)},
                room - need + if q in mem then 1 else 0)
  {
    hide Took, Cover;
    TookMore(done, q, mem0, tables0, room0, mem, tables, room);
    assert all[..|done| + 1] == done + [q];
    if Cover(all, mem0, tables0, room0) { CoverPrefix(all, |done| + 1, mem0, tables0, room0); }
  }

  lemma FirstPage(va: int, filesz: int, memsz: int)
    requires va >= 0 && filesz >= 0 && memsz >= 0 && va % BY2PG != 0
    ensures var ps := SegPages(va, filesz, memsz); |ps| > 0 && ps[0] == va / BY2PG
  {}

  /** The page the loops come to is the next of the list. */
  lemma NextPage(mem: map<int, Page>, mapped: seq<int>, was: map<int, Page>, log: seq<int>, va: int, bin: seq<Byte>,
                 memsz: int, w: bool, i: int, n: int, m: int, done: seq<int>)
    requires Loading(mem, mapped, was, log, va, bin, memsz, w, i, n, m) && mapped == log + done && va >= 0
    requires 0 <= i < |bin| || |bin| <= i < memsz
    ensures var ps := SegPages(va, |bin|, memsz);
      |done| < |ps| && ps[..|done|] == done && ps[|done|] == (va + i) / BY2PG
  {
    hide Seg, Content, Filled;
    var ps, p := SegPages(va, |bin|, memsz), va / BY2PG;
    assert done == mapped[|log|..];
    if Misaligned(va, |bin|) {
      assert done == [p] + Range(p, m);
      assert ps[..|done|] == done;
    } else {
      assert done == Range(p, n);
      assert ps[..|done|] == done;
    }
  }

  lemma AllDone(mem: map<int, Page>, mapped: seq<int>, was: map<int, Page>, log: seq<int>, va: int, bin: seq<Byte>,
                memsz: int, w: bool, done: seq<int>, mem0: set<int>, tables0: set<int>, room0: nat, keys: set<int>,
                tables: set<int>, room: nat)
    requires Loaded(mem, mapped, was, log, va, bin, memsz, w) && mapped == log + done
    requires Took(done, mem0, tables0, room0, keys, tables, room)
    ensures done == SegPages(va, |bin|, memsz) && Cover(done, mem0, tables0, room0)
    ensures room == room0 - Taken(SegPages(va, |bin|, memsz), mem0, tables0)
  {
    assert done == mapped[|log|..];
  }

  predicate Misaligned(va: int, size: int) { va % BY2PG != 0 && size < BY2PG - va % BY2PG }

  /** After `n` pages of the file, and `m` more once the file ended inside its first page. */
  ghost predicate Loading(mem: map<int, Page>, mapped: seq<int>, was: map<int, Page>, log: seq<int>,
                          va: int, bin: seq<Byte>, memsz: int, w: bool, i: int, n: int, m: int)
  {
    var p := va / BY2PG;
    if Misaligned(va, |bin|) then
      && i == |bin| + m * BY2PG && m >= 0 && mapped == log + [p] + Range(p, m) && i - Max(|bin|, memsz) < BY2PG
      && if m == 0 then Seg(mem, was, p, 1, va, bin, w) else |bin| < memsz && Seg(mem, was, p, m, va, [], w)
    else
      && va + i == (p + n) * BY2PG && n >= (if va % BY2PG != 0 then 1 else 0)
      && mapped == log + Range(p, n) && Seg(mem, was, p, n, va, bin, w) && i - Max(|bin|, memsz) < BY2PG
  }

  lemma Begin(mem: map<int, Page>, log: seq<int>, va: int, bin: seq<Byte>, memsz: int, w: bool)
    requires va >= 0
    ensures var o := va % BY2PG; var p := va / BY2PG; var k := Min(|bin|, BY2PG - o);
            if o == 0 then Loading(mem, log, mem, log, va, bin, memsz, w, 0, 0, 0)
            else Loading(mem[p := Page(Filled(o, bin[..k]), w)], log + [p], mem, log, va, bin, memsz, w, k, 1, 0)
  {
    FirstContent(va, bin);
    assert Range(va / BY2PG, 1) == [va / BY2PG] && Range(va / BY2PG, 0) == [];
  }

  lemma LoadStep(mem: map<int, Page>, mapped: seq<int>, was: map<int, Page>, log: seq<int>,
                 va: int, bin: seq<Byte>, memsz: int, w: bool, i: int, n: int)
    requires Loading(mem, mapped, was, log, va, bin, memsz, w, i, n, 0) && 0 <= i < |bin|
    ensures var q := (va + i) / BY2PG; var b := bin[i..i + Min(|bin| - i, BY2PG)];
            Loading(mem[q := Page(Filled(0, b), w)], mapped + [q], was, log, va, bin, memsz, w, i + BY2PG, n + 1, 0)
  {
    hide Seg, Content, Filled;
    NextContent(va, bin, i, va / BY2PG + n);
    SegMore(mem, was, va / BY2PG, n, va, bin, w);
  }

  lemma ClearStep(mem: map<int, Page>, mapped: seq<int>, was: map<int, Page>, log: seq<int>,
                  va: int, bin: seq<Byte>, memsz: int, w: bool, i: int, n: int, m: int)
    requires Loading(mem, mapped, was, log, va, bin, memsz, w, i, n, m) && |bin| <= i < memsz && va >= 0
    ensures var q := (va + i) / BY2PG; var bad := Misaligned(va, |bin|);
            Loading(mem[q := Page(Filled(0, []), w)], mapped + [q], was, log, va, bin, memsz, w, i + BY2PG,
                    if bad then n else n + 1, if bad then m + 1 else m)
  {
    if Misaligned(va, |bin|) {
      ClearAgain(mem, mapped, was, log, va, bin, memsz, w, i, n, m);
    } else {
      hide Seg, Content, Filled;
      NextContent(va, bin, i, va / BY2PG + n);
      SegMore(mem, was, va / BY2PG, n, va, bin, w);
    }
  }

  lemma ClearAgain(mem: map<int, Page>, mapped: seq<int>, was: map<int, Page>, log: seq<int>,
                   va: int, bin: seq<Byte>, memsz: int, w: bool, i: int, n: int, m: int)
    requires Loading(mem, mapped, was, log, va, bin, memsz, w, i, n, m) && |bin| <= i < memsz && va >= 0
    requires Misaligned(va, |bin|)
    ensures var q := (va + i) / BY2PG;
            Loading(mem[q := Page(Filled(0, []), w)], mapped + [q], was, log, va, bin, memsz, w, i + BY2PG, n, m + 1)
  {
    var p := va / BY2PG;
    hide Seg, Content, Filled;
    assert (va + i) / BY2PG == p + m;
    NoContent(va, p + m);
    if m == 0 { SegAgain(mem, was, p, va, bin, w); } else { SegMore(mem, was, p, m, va, [], w); }
  }

  /** What a whole load comes to, in both cases. */
  ghost predicate Loaded(mem: map<int, Page>, mapped: seq<int>, was: map<int, Page>, log: seq<int>,
                         va: int, bin: seq<Byte>, memsz: int, w: bool)
  {
    var p := va / BY2PG;
    && mapped == log + SegPages(va, |bin|, memsz)
    && if Guard(va, |bin|, memsz) then Seg(mem, was, p, NPages(va, Max(|bin|, memsz)), va, bin, w)
       else Seg(mem, was, p, ZeroPages(|bin|, memsz), va, [], w)
  }

  lemma End(mem: map<int, Page>, mapped: seq<int>, was: map<int, Page>, log: seq<int>,
            va: int, bin: seq<Byte>, memsz: int, w: bool, i: int, n: int, m: int)
    requires Loading(mem, mapped, was, log, va, bin, memsz, w, i, n, m) && i >= |bin| && i >= memsz && va >= 0
    requires memsz >= 0
    ensures Loaded(mem, mapped, was, log, va, bin, memsz, w)
  {
    hide Seg;
    if Misaligned(va, |bin|) {
      hide NPages;
      EndMisaligned(va, |bin|, memsz, i, m);
    } else {
      EndAligned(va, |bin|, memsz, i, n);
      hide NPages, ZeroPages, Range;
    }
  }

  lemma EndMisaligned(va: int, filesz: int, memsz: int, i: int, m: int)
    requires Misaligned(va, filesz) && i == filesz + m * BY2PG && m >= 0 && i >= memsz && va >= 0 && memsz >= 0
    requires filesz >= 0 && i - Max(filesz, memsz) < BY2PG && (m > 0 ==> filesz < memsz)
    ensures m == 0 <==> Guard(va, filesz, memsz)
    ensures SegPages(va, filesz, memsz) == [va / BY2PG] + Range(va / BY2PG, m)
    ensures m == 0 ==> NPages(va, Max(filesz, memsz)) == 1
    ensures m > 0 ==> ZeroPages(filesz, memsz) == m
  {
    var p := va / BY2PG;
    if m == 0 { assert Range(p, 1) == [p] && Range(p, 0) == []; }
  }

  lemma EndAligned(va: int, filesz: int, memsz: int, i: int, n: int)
    requires !Misaligned(va, filesz) && va + i == (va / BY2PG + n) * BY2PG && i >= memsz && i >= filesz
    requires va >= 0 && memsz >= 0 && filesz >= 0
    requires n >= (if va % BY2PG != 0 then 1 else 0) && i - Max(filesz, memsz) < BY2PG
    ensures Guard(va, filesz, memsz) && NPages(va, Max(filesz, memsz)) == n
    ensures SegPages(va, filesz, memsz) == Range(va / BY2PG, n)
  {}

  /** A file's part that ends within its unaligned first page, with zeros to follow: the first page is
      mapped a second time, over the file's bytes. */
  lemma Outcome(mem: map<int, Page>, mapped: seq<int>, was: map<int, Page>, log: seq<int>,
                va: int, bin: seq<Byte>, memsz: int, w: bool)
    requires va >= 0 && memsz >= 0 && Loaded(mem, mapped, was, log, va, bin, memsz, w)
    ensures |log| <= |mapped| && (Exact(mem, mapped[|log|..], va, bin, memsz) <==> Guard(va, |bin|, memsz))
  {
    var p := va / BY2PG;
    var pages := mapped[|log|..];
    if Guard(va, |bin|, memsz) {
      var n := NPages(va, Max(|bin|, memsz));
      assert pages == Range(p, n);
      hide Filled, Seg;
      GuardedReads(mem, was, va, bin, memsz, w);
    } else {
      var m := ZeroPages(|bin|, memsz);
      assert m > 0 && pages == [p] + Range(p, m);
      assert pages[0] == pages[1];
    }
  }

  lemma GuardedReads(mem: map<int, Page>, was: map<int, Page>, va: int, bin: seq<Byte>, memsz: int, w: bool)
    requires va >= 0 && memsz >= 0 && Seg(mem, was, va / BY2PG, NPages(va, Max(|bin|, memsz)), va, bin, w)
    ensures forall k {:trigger SegByte(mem, va, k)} ::
      0 <= k < Max(|bin|, memsz) ==> SegByte(mem, va, k) == Some(if k < |bin| then bin[k] else 0)
  {
    var p, n := va / BY2PG, NPages(va, Max(|bin|, memsz));
    forall k | 0 <= k < Max(|bin|, memsz) ensures SegByte(mem, va, k) == Some(if k < |bin| then bin[k] else 0) {
      var q := (va + k) / BY2PG;
      assert p <= q < p + n;
      assert mem[q] == Page(Content(va, bin, q), w);
    }
  }

  /**
    What goes wrong then: none of the file's bytes is there, all of them read zero, and the segment's last page
    is left as it was whenever the zeros alone take fewer pages than the segment.
   */
  lemma Damage(mem: map<int, Page>, mapped: seq<int>, was: map<int, Page>, log: seq<int>,
               va: int, bin: seq<Byte>, memsz: int, w: bool)
    requires va >= 0 && memsz >= 0 && Loaded(mem, mapped, was, log, va, bin, memsz, w) && !Guard(va, |bin|, memsz)
    ensures forall k {:trigger SegByte(mem, va, k)} :: 0 <= k < |bin| ==> SegByte(mem, va, k) == Some(0)
    ensures var last := va / BY2PG + NPages(va, memsz) - 1; var zeros := ZeroPages(|bin|, memsz);
      && zeros <= NPages(va, memsz) <= zeros + 1
      && (zeros < NPages(va, memsz) ==> (last in mem <==> last in was) && (last in mem ==> mem[last] == was[last]))
      && (zeros == NPages(va, memsz) ==> last in mem && mem[last] == Page(Filled(0, []), w))
  {
    var p, m := va / BY2PG, ZeroPages(|bin|, memsz);
    assert m >= 1 && Seg(mem, was, p, m, va, [], w);
    forall k | 0 <= k < |bin| ensures SegByte(mem, va, k) == Some(0) {
      assert (va + k) / BY2PG == p && mem[p] == Page(Content(va, [], p), w);
    }
    NoContent(va, p + m - 1);
  }

  /** An instance: 50 bytes of file 96 bytes before a page boundary, 200 bytes in memory. */
  lemma DamageAt(mem: map<int, Page>, mapped: seq<int>, bin: seq<Byte>)
    requires |bin| == 50 && Loaded(mem, mapped, map[], [], 4000, bin, 200, true)
    ensures mem.Keys == {0} && mapped == [0, 0] && SegByte(mem, 4000, 0) == Some(0) && SegByte(mem, 4000, 100) == Fault
  {
    Damage(mem, mapped, map[], [], 4000, bin, 200, true);
    assert Range(0, 1) == [0] by { assert Range(0, 0) == []; }
    assert Seg(mem, map[], 0, 1, 4000, [], true);
    forall q ensures q in mem <==> q == 0 {}
    assert 1 !in mem;
    assert SegByte(mem, 4000, 0) == Some(0);
  }
}
