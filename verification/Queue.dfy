/** The tail queue of include/queue.h at the level of its links, over the elements of a fixed table. */
module Queue {

  // A link to an element, or NULL; and the address of a link: the head's, or an element's `tqe_next`.
  datatype Link = Null | To(elm: nat)
  datatype Addr = First | NextOf(elm: nat)

  ghost predicate NoDup(s: seq<nat>) {
    forall i, j :: 0 <= i < j < |s| ==> s[i] != s[j]
  }

  /** The link at position `k` of a queue with these contents, and the address it is stored at. */
  ghost function LinkAt(s: seq<nat>, k: nat): Link
    requires k <= |s|
  {
    if k < |s| then To(s[k]) else Null
  }

  ghost function AddrAt(s: seq<nat>, k: nat): Addr
    requires k <= |s|
  {
    if k == 0 then First else NextOf(s[k - 1])
  }

  /** The links of the element at position `k` are those of its neighbours. */
  ghost predicate LinkedAt(next: seq<Link>, prev: seq<Addr>, s: seq<nat>, k: nat) {
    k < |s| && s[k] < |next| && s[k] < |prev| && prev[s[k]] == AddrAt(s, k) && next[s[k]] == LinkAt(s, k + 1)
  }

  ghost predicate Linked(next: seq<Link>, prev: seq<Addr>, s: seq<nat>) {
    forall k: nat {:trigger LinkedAt(next, prev, s, k)} :: k < |s| ==> LinkedAt(next, prev, s, k)
  }

  /** `s` without the elements at positions `k` to `j`. */
  function Cut<T>(s: seq<T>, k: nat, j: nat): seq<T>
    requires k <= j <= |s|
  {
    s[..k] + s[j..]
  }

  /** Joining the neighbours of a gap links the queue without it. */
  lemma CutLinked(next: seq<Link>, prev: seq<Addr>, s: seq<nat>, k: nat, j: nat)
    requires Linked(next, prev, s) && NoDup(s) && k <= j <= |s|
    ensures NoDup(Cut(s, k, j))
    ensures k > 0 ==> s[k - 1] < |next| && (k == j ==> next[s[k - 1]] == LinkAt(s, j))
    ensures j < |s| ==> s[j] < |prev| && (k == j ==> prev[s[j]] == AddrAt(s, k))
    ensures var next' := if k > 0 then next[s[k - 1] := LinkAt(s, j)] else next;
      var prev' := if j < |s| then prev[s[j] := AddrAt(s, k)] else prev;
      Linked(next', prev', Cut(s, k, j))
  {
    if k > 0 {
      assert LinkedAt(next, prev, s, k - 1);
    }
    if j < |s| {
      assert LinkedAt(next, prev, s, j);
    }
    var next' := if k > 0 then next[s[k - 1] := LinkAt(s, j)] else next;
    var prev' := if j < |s| then prev[s[j] := AddrAt(s, k)] else prev;
    var t := Cut(s, k, j);
    forall i: nat | i < |t| ensures LinkedAt(next', prev', t, i) {
      var o := if i < k then i else i + j - k;
      assert LinkedAt(next, prev, s, o);
      assert t[i] == s[o];
    }
  }

  class TailQueue {
    const n: nat            // size of the table
    var first: Link         // tqh_first
    var last: Addr          // tqh_last
    var next: seq<Link>     // tqe_next of each element
    var prev: seq<Addr>     // tqe_prev of each element
    ghost var contents: seq<nat>

    ghost predicate Valid()
      reads this
    {
      && |next| == |prev| == n
      && NoDup(contents)
      && first == LinkAt(contents, 0)
      && Linked(next, prev, contents)
      && last == AddrAt(contents, |contents|)
    }

    /**
      The links of `e` say that it stands between position `k` and position `j`: an element of the queue
      has j == k + 1; one that has been removed, with no change at its place since, has j == k.
     */
    ghost predicate Between(e: nat, k: nat, j: nat)
      reads this
      requires Valid()
    {
      && e < n && k <= j <= |contents|
      && prev[e] == AddrAt(contents, k)
      && next[e] == LinkAt(contents, j)
    }

    constructor (n: nat)
      ensures Valid() && this.n == n && contents == []
    {
      this.n := n;
      first, last := Null, First;
      next, prev := seq(n, _ => Null), seq(n, _ => First);
      contents := [];
    }

    /** `*addr = link` */
    method StoreLink(addr: Addr, link: Link)
      requires addr.NextOf? ==> addr.elm < |next|
      modifies this`first, this`next
      ensures addr == First ==> first == link && next == old(next)
      ensures addr.NextOf? ==> first == old(first) && next == old(next)[addr.elm := link]
    {
      match addr
      case First => first := link;
      case NextOf(e) => next := next[e := link];
    }

    /** An element of the queue stands between its neighbours. */
    lemma InQueue(e: nat) returns (k: nat)
      requires Valid() && e in contents
      ensures k < |contents| && contents[k] == e && Between(e, k, k + 1)
    {
      k :| k < |contents| && contents[k] == e;
      assert LinkedAt(next, prev, contents, k);
    }

    method InsertHead(e: nat)
      requires Valid() && e < n && e !in contents
      modifies this
      ensures Valid() && contents == [e] + old(contents)
    {
      if contents != [] {
        assert LinkedAt(next, prev, contents, 0);
      }
      next := next[e := first];
      match first {
        case To(f) => prev := prev[f := NextOf(e)];
        case Null => last := NextOf(e);
      }
      first := To(e);
      prev := prev[e := First];
      contents := [e] + contents;
      forall k: nat | k < |contents| ensures LinkedAt(next, prev, contents, k) {
        if k > 0 {
          assert LinkedAt(old(next), old(prev), old(contents), k - 1);
        }
      }
    }

    method InsertTail(e: nat)
      requires Valid() && e < n && e !in contents
      modifies this
      ensures Valid() && contents == old(contents) + [e]
    {
      if contents != [] {
        assert LinkedAt(next, prev, contents, |contents| - 1);
      }
      next := next[e := Null];
      prev := prev[e := last];
      StoreLink(last, To(e));
      last := NextOf(e);
      contents := contents + [e];
      forall k: nat | k < |contents| ensures LinkedAt(next, prev, contents, k) {
        if k < |old(contents)| {
          assert LinkedAt(old(next), old(prev), old(contents), k);
        }
      }
    }

    /**
      TAILQ_REMOVE trusts the links of `e`. Whatever stood between the two places they name is cut out.
     */
    method Remove(e: nat, ghost k: nat, ghost j: nat)
      requires Valid() && Between(e, k, j)
      modifies this
      ensures Valid() && contents == Cut(old(contents), k, j)
      ensures next[e] == old(next[e]) || (k > 0 && old(contents)[k - 1] == e)
      ensures prev[e] == old(prev[e]) || (j < |old(contents)| && old(contents)[j] == e)
      ensures j == k + 1 && old(contents)[k] == e ==> Between(e, k, k)
      ensures j == k ==> first == old(first) && last == old(last) && next == old(next) && prev == old(prev)
    {
      CutLinked(next, prev, contents, k, j);
      match next[e] {
        case To(f) => prev := prev[f := prev[e]];
        case Null => last := prev[e];
      }
      assert k == j && k > 0 ==> next[contents[k - 1] := next[contents[k - 1]]] == next;
      StoreLink(prev[e], next[e]);
      contents := Cut(contents, k, j);
    }

    /** An element that has just been removed stands between two neighbours: removing it again changes nothing. */
    method RemoveTwice(e: nat, ghost k: nat)
      requires Valid() && k < |contents| && contents[k] == e
      modifies this
      ensures Valid() && contents == Cut(old(contents), k, k + 1) && Between(e, k, k)
    {
      assert LinkedAt(next, prev, contents, k);
      Remove(e, k, k + 1);
      Remove(e, k, k);
    }
  }
}
