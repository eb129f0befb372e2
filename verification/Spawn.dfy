/**
  Laying out a new program's arguments on its first stack page (user/lib/spawn.c). Addresses inside the page
  are offsets: the page is at UTEMP in the parent while it is filled and at USTACKTOP - BY2PG in the child.
 */
module SpawnStack {

  type Byte = x: int | 0 <= x < 256

  const BY2PG := 4096
  const USTACKTOP := 0x7f3f_e000
  const BASE := USTACKTOP - BY2PG
  const E_NO_MEM := 4

  function Round4(n: int): int { (n + 3) / 4 * 4 }

  /** The room the strings take, each with its terminator. */
  function Tot(argv: seq<seq<Byte>>): (n: int)
    ensures n >= |argv|
  {
    if argv == [] then 0 else Tot(argv[..|argv| - 1]) + |argv[|argv| - 1]| + 1
  }

  /** The strings one after the other, each with its terminator. */
  function Flat(argv: seq<seq<Byte>>): (f: seq<Byte>)
    ensures |f| == Tot(argv)
  {
    if argv == [] then [] else Flat(argv[..|argv| - 1]) + argv[|argv| - 1] + [0]
  }

  /** The offset of the i-th string among them. */
  function Off(argv: seq<seq<Byte>>, i: int): int
    requires 0 <= i <= |argv|
  { Tot(argv[..i]) }

  lemma OffNext(argv: seq<seq<Byte>>, i: int)
    requires 0 <= i < |argv|
    ensures Off(argv, i + 1) == Off(argv, i) + |argv[i]| + 1
  {
    assert argv[..i + 1][..i] == argv[..i];
  }

  lemma {:induction false} FlatAt(argv: seq<seq<Byte>>, i: int)
    requires 0 <= i < |argv|
    ensures 0 <= Off(argv, i) && Off(argv, i) + |argv[i]| < Tot(argv)
    ensures forall j :: 0 <= j < |argv[i]| ==> Flat(argv)[Off(argv, i) + j] == argv[i][j]
    ensures Flat(argv)[Off(argv, i) + |argv[i]|] == 0
  {
    var n := |argv| - 1;
    if i < n {
      FlatAt(argv[..n], i);
      assert argv[..n][..i] == argv[..i];
    } else {
      assert argv[..i] == argv[..n];
    }
  }

  // ---- words and strings of a page ----

  predicate IsWord(x: int) { 0 <= x < 0x1_0000_0000 }

  function WordAt(p: seq<Byte>, o: int): int
    requires 0 <= o && o + 4 <= |p|
  { Word(p[o], p[o + 1], p[o + 2], p[o + 3]) }

  function Word(a: int, b: int, c: int, d: int): int { a + b * 0x100 + c * 0x1_0000 + d * 0x100_0000 }

  lemma WordParts(x: int)
    requires IsWord(x)
    ensures x == Word(x % 0x100, x / 0x100 % 0x100, x / 0x100 / 0x100 % 0x100, x / 0x100 / 0x100 / 0x100)
    ensures 0 <= x / 0x100 / 0x100 / 0x100 < 0x100
  {
    var q1 := x / 0x100;
    var q2 := q1 / 0x100;
    assert x == q1 * 0x100 + x % 0x100 && q1 == q2 * 0x100 + q1 % 0x100 && q2 == q2 / 0x100 * 0x100 + q2 % 0x100;
  }

  method StoreWord(page: array<Byte>, o: int, x: int)
    requires 0 <= o && o + 4 <= page.Length && IsWord(x)
    modifies page
    ensures WordAt(page[..], o) == x
    ensures forall k :: 0 <= k < page.Length && (k < o || k >= o + 4) ==> page[k] == old(page[k])
  {
    WordParts(x);
    hide Word;
    page[o] := x % 0x100;
    page[o + 1] := x / 0x100 % 0x100;
    page[o + 2] := x / 0x100 / 0x100 % 0x100;
    page[o + 3] := x / 0x100 / 0x100 / 0x100;
    ghost var p := page[..];
    assert p[o] == x % 0x100 && p[o + 1] == x / 0x100 % 0x100;
    assert p[o + 2] == x / 0x100 / 0x100 % 0x100 && p[o + 3] == x / 0x100 / 0x100 / 0x100;
  }

  lemma WordKept(p: seq<Byte>, q: seq<Byte>, o: int)
    requires 0 <= o && o + 4 <= |p| == |q| && forall k :: o <= k < o + 4 ==> p[k] == q[k]
    ensures WordAt(p, o) == WordAt(q, o)
  {}

  /** The C string at an offset: the bytes up to the first zero. */
  function CString(p: seq<Byte>, o: int): seq<Byte>
    requires 0 <= o
    decreases |p| - o
  {
    if o >= |p| || p[o] == 0 then [] else [p[o]] + CString(p, o + 1)
  }

  lemma {:induction false} CStringIs(p: seq<Byte>, o: int, arg: seq<Byte>)
    requires 0 <= o && o + |arg| < |p| && p[o + |arg|] == 0
    requires forall j :: 0 <= j < |arg| ==> arg[j] != 0 && p[o + j] == arg[j]
    ensures CString(p, o) == arg
    decreases |arg|
  {
    if arg != [] {
      assert arg == [arg[0]] + arg[1..];
      forall j | 0 <= j < |arg| - 1 ensures p[o + 1 + j] == arg[1..][j] { assert p[o + (j + 1)] == arg[j + 1]; }
      CStringIs(p, o + 1, arg[1..]);
    }
  }

  // ---- what the child finds ----

  /** main's argc and argv, read from the stack pointer the child starts with. */
  function Argc(p: seq<Byte>, sp: int): int
    requires |p| == BY2PG && BASE <= sp <= USTACKTOP - 4
  { WordAt(p, sp - BASE) }

  /** The i-th argument, or nothing when a pointer leads out of the page. */
  function Arg(p: seq<Byte>, sp: int, i: int): (r: seq<Byte>)
    requires |p| == BY2PG && BASE <= sp <= USTACKTOP - 8
  {
    StringBy(p, WordAt(p, sp - BASE + 4) - BASE + 4 * i)
  }

  /** The string that the pointer at offset `a` leads to. */
  function StringBy(p: seq<Byte>, a: int): (r: seq<Byte>)
    requires |p| == BY2PG
  {
    if 0 <= a <= BY2PG - 4 && 0 <= WordAt(p, a) - BASE < BY2PG then CString(p, WordAt(p, a) - BASE) else []
  }

  predicate Fits(argv: seq<seq<Byte>>) { Round4(Tot(argv)) + 4 * (|argv| + 3) <= BY2PG }

  predicate NoNuls(argv: seq<seq<Byte>>) {
    forall i, j :: 0 <= i < |argv| && 0 <= j < |argv[i]| ==> argv[i][j] != 0
  }

  /** The strings fill the end of the page. */
  ghost predicate StringsIn(p: seq<Byte>, argv: seq<seq<Byte>>) {
    |p| == BY2PG && Fits(argv) && p[BY2PG - Tot(argv)..] == Flat(argv)
  }

  /** The address the child sees for the i-th string. */
  function Addr(argv: seq<seq<Byte>>, i: int): int
    requires 0 <= i <= |argv|
  { USTACKTOP - Tot(argv) + Off(argv, i) }

  ghost predicate PtrsIn(p: seq<Byte>, argv: seq<seq<Byte>>, n: int) {
    && |p| == BY2PG && Fits(argv) && 0 <= n <= |argv|
    && forall i {:trigger Addr(argv, i)} :: 0 <= i < n ==> WordAt(p, ArgsAt(argv) + 4 * i) == Addr(argv, i)
  }

  /** The offset of the pointer array. */
  function ArgsAt(argv: seq<seq<Byte>>): (o: int)
    ensures Fits(argv) ==> 8 <= o && o + 4 * (|argv| + 1) <= BY2PG - Tot(argv) && o % 4 == 0
  { BY2PG - Round4(Tot(argv)) - 4 * (|argv| + 1) }

  /** Everything read back: the count, every argument, and, as it happens, a last pointer that is not null. */
  lemma Decodes(p: seq<Byte>, argv: seq<seq<Byte>>, sp: int)
    requires StringsIn(p, argv) && PtrsIn(p, argv, |argv|) && NoNuls(argv) && sp == BASE + ArgsAt(argv) - 8
    requires WordAt(p, ArgsAt(argv) - 8) == |argv| && WordAt(p, ArgsAt(argv) - 4) == BASE + ArgsAt(argv)
    ensures Argc(p, sp) == |argv| && forall i :: 0 <= i < |argv| ==> Arg(p, sp, i) == argv[i]
  {
    forall i | 0 <= i < |argv| ensures Arg(p, sp, i) == argv[i] { DecodesOne(p, argv, sp, i); }
  }

  lemma DecodesOne(p: seq<Byte>, argv: seq<seq<Byte>>, sp: int, i: int)
    requires StringsIn(p, argv) && PtrsIn(p, argv, |argv|) && NoNuls(argv) && sp == BASE + ArgsAt(argv) - 8
    requires WordAt(p, ArgsAt(argv) - 4) == BASE + ArgsAt(argv) && 0 <= i < |argv|
    ensures Arg(p, sp, i) == argv[i]
  {
    StringAt(p, argv, i);
    ArgsRoom(argv);
    assert WordAt(p, ArgsAt(argv) + 4 * i) == Addr(argv, i) == BASE + (BY2PG - Tot(argv) + Off(argv, i));
    hide Tot, Off, Flat, WordAt, Round4, CString, Fits, StringsIn, PtrsIn, ArgsAt, Addr, NoNuls;
    assert StringBy(p, ArgsAt(argv) + 4 * i) == argv[i];
    hide StringBy;
  }

  lemma StringAt(p: seq<Byte>, argv: seq<seq<Byte>>, i: int)
    requires StringsIn(p, argv) && NoNuls(argv) && 0 <= i < |argv|
    ensures 0 <= BY2PG - Tot(argv) + Off(argv, i) < BY2PG
    ensures CString(p, BY2PG - Tot(argv) + Off(argv, i)) == argv[i]
  {
    FlatAt(argv, i);
    var s := BY2PG - Tot(argv);
    var o := s + Off(argv, i);
    assert Tot(argv) <= BY2PG;
    hide Tot, Off, Flat, Round4, CString, Fits;
    forall j | 0 <= j < |argv[i]| ensures p[o + j] == argv[i][j] { assert p[s..][Off(argv, i) + j] == argv[i][j]; }
    assert p[s..][Off(argv, i) + |argv[i]|] == 0;
    CStringIs(p, o, argv[i]);
  }

  /** One string and its terminator. */
  method CopyString(page: array<Byte>, at: int, arg: seq<Byte>)
    requires 0 <= at && at + |arg| < page.Length
    modifies page
    ensures page[..][..at] == old(page[..])[..at] && page[..][at..at + |arg| + 1] == arg + [0]
  {
    var j := 0;
    while j < |arg|
      invariant 0 <= j <= |arg| && page[..at] == old(page[..at]) && page[at..at + j] == arg[..j]
    {
      page[at + j] := arg[j];
      j := j + 1;
    }
    page[at + |arg|] := 0;
    assert page[..][..at] == page[..at] && page[..][at..at + |arg| + 1] == page[at..at + |arg| + 1];
  }

  lemma Joined(p: seq<Byte>, q: seq<Byte>, a: int, c: int, e: int)
    requires 0 <= a <= c <= e <= |p| == |q| && q[..c] == p[..c]
    ensures q[a..e] == p[a..c] + q[c..e]
  {
    assert q[a..c] == q[..c][a..] == p[a..c];
  }

  lemma FlatNext(argv: seq<seq<Byte>>, i: int)
    requires 0 <= i < |argv|
    ensures Flat(argv[..i + 1]) == Flat(argv[..i]) + (argv[i] + [0])
    ensures Off(argv, i + 1) == Off(argv, i) + |argv[i]| + 1 <= Tot(argv) && Off(argv, i) >= 0
  {
    assert argv[..i + 1][..i] == argv[..i];
    assert Flat(argv[..i]) + argv[i] + [0] == Flat(argv[..i]) + (argv[i] + [0]);
    FlatAt(argv, i);
    OffNext(argv, i);
  }

  /** The strings, copied byte by byte to the end of the page. */
  method CopyStrings(page: array<Byte>, argv: seq<seq<Byte>>)
    requires page.Length == BY2PG && Fits(argv)
    modifies page
    ensures StringsIn(page[..], argv)
  {
    var strings := BY2PG - TotOf(argv);
    var c, i := strings, 0;
    assert argv[..0] == [] && argv[..|argv|] == argv;
    assert Off(argv, 0) == 0 && Flat(argv[..0]) == [];
    hide Tot, Flat, Round4, Off, Fits;
    while i < |argv|
      invariant 0 <= i <= |argv| && c == strings + Off(argv, i) && strings <= c <= BY2PG
      invariant page[..][strings..c] == Flat(argv[..i])
    {
      FlatNext(argv, i);
      ghost var before := page[..];
      CopyString(page, c, argv[i]);
      Joined(before, page[..], strings, c, c + |argv[i]| + 1);
      c, i := c + |argv[i]| + 1, i + 1;
    }
    assert page[..][strings..] == page[..][strings..c];
  }

  function TotOf(argv: seq<seq<Byte>>): (n: int)
    ensures n == Tot(argv) == Off(argv, |argv|) && 0 <= n && (Fits(argv) ==> n <= BY2PG)
  {
    assert argv[..|argv|] == argv;
    Tot(argv)
  }

  /** The pointers, at the addresses the child will see. */
  method StorePointers(page: array<Byte>, argv: seq<seq<Byte>>) returns (addr: int)
    requires page.Length == BY2PG && StringsIn(page[..], argv)
    modifies page
    ensures StringsIn(page[..], argv) && PtrsIn(page[..], argv, |argv|) && addr == USTACKTOP
  {
    addr := BASE + (BY2PG - TotOf(argv));
    var i := 0;
    assert argv[..0] == [] && argv[..|argv|] == argv;
    assert Tot(argv[..0]) == 0;
    hide Flat, WordAt, Round4, Tot;
    while i < |argv|
      invariant 0 <= i <= |argv| && addr == Addr(argv, i)
      invariant StringsIn(page[..], argv) && PtrsIn(page[..], argv, i)
    {
      FlatAt(argv, i);
      OffNext(argv, i);
      ghost var p := page[..];
      StoreWord(page, ArgsAt(argv) + 4 * i, addr);
      PtrsMore(p, page[..], argv, i);
      addr, i := addr + |argv[i]| + 1, i + 1;
    }
  }

  /** init_stack; `alloc`, `share` and `unmap` are what the three system calls return. */
  method InitStack(argv: seq<seq<Byte>>, alloc: int, share: int, unmap: int)
    returns (r: int, page: array<Byte>, sp: int)
    requires NoNuls(argv)
    ensures fresh(page) && page.Length == BY2PG
    ensures r == if !Fits(argv) then -E_NO_MEM else if alloc < 0 then alloc else if share < 0 then share
                 else if unmap < 0 then unmap else 0
    ensures r == 0 ==> BASE <= sp <= USTACKTOP - 8 && sp % 4 == 0 && Argc(page[..], sp) == |argv|
    ensures r == 0 ==> forall i :: 0 <= i < |argv| ==> Arg(page[..], sp, i) == argv[i]
    ensures r == 0 ==> WordAt(page[..], ArgsAt(argv) + 4 * |argv|) == USTACKTOP - 1
  {
    hide Tot, Off, Flat, WordAt, Round4, ArgsAt, StringsIn, PtrsIn, Argc, Arg, Fits;
    page, sp := new Byte[BY2PG](_ => 0), 0;
    var argc, tot := CountArgs(argv);
    Layout(argv);
    if Round4(tot) + 4 * (argc + 3) > BY2PG { return -E_NO_MEM, page, sp; }
    if alloc < 0 { return alloc, page, sp; }
    CopyStrings(page, argv);
    var addr := StorePointers(page, argv);
    sp := StoreHeader(page, argv, BY2PG - Round4(tot) - 4 * (argc + 1), addr - 1);
    if share < 0 { return share, page, sp; }
    r := if unmap < 0 then unmap else 0;
  }

  lemma Layout(argv: seq<seq<Byte>>)
    ensures Fits(argv) <==> Round4(Tot(argv)) + 4 * (|argv| + 3) <= BY2PG
    ensures ArgsAt(argv) == BY2PG - Round4(Tot(argv)) - 4 * (|argv| + 1)
  {}

  method CountArgs(argv: seq<seq<Byte>>) returns (argc: int, tot: int)
    ensures argc == |argv| && tot == Tot(argv)
  {
    argc, tot := 0, 0;
    while argc < |argv|
      invariant 0 <= argc <= |argv| && tot == Off(argv, argc)
    {
      OffNext(argv, argc);
      tot := tot + |argv[argc]| + 1;
      argc := argc + 1;
    }
    assert argv[..|argv|] == argv;
  }

  /** The word after the pointers (which the source means to be null), and argv and argc below them. */
  method StoreHeader(page: array<Byte>, argv: seq<seq<Byte>>, args: int, last: int) returns (sp: int)
    requires page.Length == BY2PG && StringsIn(page[..], argv) && PtrsIn(page[..], argv, |argv|) && NoNuls(argv)
    requires args == ArgsAt(argv) && IsWord(last)
    modifies page
    ensures sp == BASE + args - 8 && BASE <= sp <= USTACKTOP - 8 && Argc(page[..], sp) == |argv|
    ensures forall i :: 0 <= i < |argv| ==> Arg(page[..], sp, i) == argv[i]
    ensures WordAt(page[..], args + 4 * |argv|) == last
  {
    ArgsRoom(argv);
    hide Tot, Off, Flat, WordAt, Round4, ArgsAt, StringsIn, PtrsIn, Argc, Arg, Fits;
    ghost var p0 := page[..];
    StoreWord(page, args + 4 * |argv|, last);
    ghost var p1 := page[..];
    PtrsStill(p0, p1, argv, args + 4 * |argv|);
    StoreWord(page, args - 4, BASE + args);
    ghost var p2 := page[..];
    PtrsStill(p1, p2, argv, args - 4);
    StoreWord(page, args - 8, |argv|);
    PtrsStill(p2, page[..], argv, args - 8);
    WordKept(p1, p2, args + 4 * |argv|);
    WordKept(p2, page[..], args + 4 * |argv|);
    WordKept(p2, page[..], args - 4);
    sp := BASE + args - 8;
    Decodes(page[..], argv, sp);
  }

  lemma ArgsRoom(argv: seq<seq<Byte>>)
    requires Fits(argv)
    ensures 8 <= ArgsAt(argv) && ArgsAt(argv) + 4 * (|argv| + 1) <= BY2PG
  {}

  /** A word written below the strings leaves them, and the pointers it does not overlap. */
  lemma PtrsStill(p: seq<Byte>, q: seq<Byte>, argv: seq<seq<Byte>>, o: int)
    requires StringsIn(p, argv) && PtrsIn(p, argv, |argv|) && |q| == BY2PG && Fits(argv)
    requires 0 <= o && (o + 4 <= ArgsAt(argv) || o == ArgsAt(argv) + 4 * |argv|)
    requires forall k :: 0 <= k < BY2PG && (k < o || k >= o + 4) ==> q[k] == p[k]
    ensures StringsIn(q, argv) && PtrsIn(q, argv, |argv|)
  {
    assert q[BY2PG - Tot(argv)..] == p[BY2PG - Tot(argv)..];
    hide Tot, Off, Flat, WordAt, ArgsAt, Round4;
    forall i | 0 <= i < |argv| ensures WordAt(q, ArgsAt(argv) + 4 * i) == Addr(argv, i) {
      WordKept(p, q, ArgsAt(argv) + 4 * i);
    }
  }

  lemma PtrsMore(p: seq<Byte>, q: seq<Byte>, argv: seq<seq<Byte>>, n: int)
    requires StringsIn(p, argv) && PtrsIn(p, argv, n) && n < |argv| && |q| == BY2PG
    requires forall k :: 0 <= k < BY2PG && (k < ArgsAt(argv) + 4 * n || k >= ArgsAt(argv) + 4 * n + 4) ==> q[k] == p[k]
    requires WordAt(q, ArgsAt(argv) + 4 * n) == Addr(argv, n)
    ensures StringsIn(q, argv) && PtrsIn(q, argv, n + 1)
  {
    assert q[BY2PG - Tot(argv)..] == p[BY2PG - Tot(argv)..];
    hide Tot, Off, Flat, WordAt, ArgsAt, Round4;
    forall i | 0 <= i < n ensures WordAt(q, ArgsAt(argv) + 4 * i) == Addr(argv, i) {
      WordKept(p, q, ArgsAt(argv) + 4 * i);
    }
  }
}
