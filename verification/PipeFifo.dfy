/** The ring of a pipe, under preemption. */
module PipeFifo {
  // One reader and one writer (user/lib/pipe.c), preempted between any two of: the test of the loop, the access to
  // the buffer, the increment of the position, and the close check. What other environments do to the pipe's slots
  // meanwhile, closing, duplicating and forking, is one step at a time and arbitrary.

  import PipeClose

  type Byte = x: int | 0 <= x < 256
  const BY2PIPE := 32

  // In pipe_read for `n` bytes, begun at position `start`; `late` says that the writer had closed by then.
  // `got` is a byte copied out but not yet counted, `sealed` that the writer had closed when the test failed.
  datatype Reader =
    | RIdle
    | RTest(n: nat, start: nat, late: bool)
    | RCopy(n: nat, start: nat, late: bool)
    | RCount(n: nat, start: nat, late: bool, got: Byte)
    | REmpty(n: nat, start: nat, late: bool, sealed: bool)

  // In pipe_write of `bytes`, begun at position `start`; `late` says that the readers had closed by then, `sealed`
  // that they had when the test failed.
  datatype Writer =
    | WIdle
    | WTest(bytes: seq<Byte>, start: nat, late: bool)
    | WPut(bytes: seq<Byte>, start: nat, late: bool)
    | WCount(bytes: seq<Byte>, start: nat, late: bool)
    | WFull(bytes: seq<Byte>, start: nat, late: bool, sealed: bool)

  // The slots of either end, those half-way through close or dup, and those that a fork has given a descriptor and
  // not yet a data page: what PipeClose counts.
  datatype Slots = Slots(readers: nat, writers: nat, late: nat, waiting: nat)

  /** What a close check answers when the opposite end has `opposite` slots. */
  predicate SaysClosed(opposite: nat, t: Slots) { opposite + t.late == t.waiting }

  ghost function SlotsOf(p: PipeClose.Sys): Slots {
    Slots(|PipeClose.Open(p.fd, PipeClose.Rd)|, |PipeClose.Open(p.fd, PipeClose.Wr)|, |PipeClose.Late(p)|,
          |PipeClose.Waiting(p)|)
  }

  /** An end that nobody has open is not opened again. */
  predicate Moves(t: Slots, t': Slots) {
    (t.readers == 0 ==> t'.readers == 0) && (t.writers == 0 ==> t'.writers == 0)
  }

  /** A check completed under preemption, with forks under way, is the check of this model. */
  lemma CheckIs(p: PipeClose.Sys, p': PipeClose.Sys, closed: bool, slot: PipeClose.Slot)
    requires PipeClose.Inv(p) && PipeClose.Step(p, p', PipeClose.Answer(closed)) && PipeClose.Checked(p, slot)
    ensures slot in p.fd
    ensures var t := SlotsOf(p); closed <==> SaysClosed(if p.fd[slot] == PipeClose.Rd then t.writers else t.readers, t)
  {
    PipeClose.AnswerIff(p, p', closed, slot);
    hide PipeClose.Step, PipeClose.Inv, PipeClose.Open, PipeClose.Late, PipeClose.Waiting;
  }

  /** Every step of that machine moves the slots as this model allows. */
  lemma SlotsMove(p: PipeClose.Sys, p': PipeClose.Sys, a: PipeClose.Act)
    requires PipeClose.Step(p, p', a)
    ensures Moves(SlotsOf(p), SlotsOf(p'))
  {
    EndMoves(p, p', a, PipeClose.Rd);
    EndMoves(p, p', a, PipeClose.Wr);
  }

  lemma EndMoves(p: PipeClose.Sys, p': PipeClose.Sys, a: PipeClose.Act, x: PipeClose.End)
    requires PipeClose.Step(p, p', a)
    ensures |PipeClose.Open(p.fd, x)| == 0 ==> |PipeClose.Open(p'.fd, x)| == 0
  {
    PipeClose.GoneIff(p.fd, x);
    PipeClose.GoneIff(p'.fd, x);
    hide PipeClose.Step, PipeClose.Open, PipeClose.Gone;
    if |PipeClose.Open(p.fd, x)| == 0 { PipeClose.EndStaysGone(p, p', a, x); }
  }

  // `written` and `delivered` are the whole history of the counted bytes.
  datatype Sys = Sys(buf: seq<Byte>, rpos: nat, wpos: nat, rd: Reader, wr: Writer,
                     slots: Slots, written: seq<Byte>, delivered: seq<Byte>)

  datatype Act =
    | ReadStart(n: nat) | ReadTest | ReadCopy | ReadCount | ReadAnswer(closed: bool)
    | WriteStart(bytes: seq<Byte>) | WriteTest | WritePut | WriteCount | WriteAnswer(closed: bool)
    | Others(slots: Slots)

  // What a call gives back, when a step ends it.
  datatype Return = Running | Returned(count: int)

  /** One step. The reader has a slot while it reads, and the writer while it writes. */
  ghost predicate Step(s: Sys, s': Sys, a: Act, r: Return) {
    match a
    case ReadStart(n) =>
      && s.rd.RIdle? && s.slots.readers > 0
      && if n == 0 then s' == s && r == Returned(0)
         else s' == s.(rd := RTest(n, s.rpos, s.slots.writers == 0)) && r == Running
    case ReadTest =>
      && s.rd.RTest? && r == Running
      && s' == s.(rd := if s.rpos < s.wpos then RCopy(s.rd.n, s.rd.start, s.rd.late)
                        else REmpty(s.rd.n, s.rd.start, s.rd.late, s.slots.writers == 0))
    case ReadCopy =>
      && s.rd.RCopy? && r == Running && |s.buf| == BY2PIPE
      && s' == s.(rd := RCount(s.rd.n, s.rd.start, s.rd.late, s.buf[s.rpos % BY2PIPE]))
    case ReadCount =>
      && s.rd.RCount?
      && var i := s.rpos + 1 - s.rd.start;
         && s' == s.(rpos := s.rpos + 1, delivered := s.delivered + [s.rd.got],
                     rd := if i == s.rd.n then RIdle else RTest(s.rd.n, s.rd.start, s.rd.late))
         && r == if i == s.rd.n then Returned(s.rd.n) else Running
    case ReadAnswer(closed) =>
      && s.rd.REmpty? && (closed <==> SaysClosed(s.slots.writers, s.slots))
      && s' == s.(rd := if closed then RIdle else RTest(s.rd.n, s.rd.start, s.rd.late))
      && r == if closed then Returned(s.rpos - s.rd.start) else Running
    case WriteStart(bytes) =>
      && s.wr.WIdle? && s.slots.writers > 0
      && if bytes == [] then s' == s && r == Returned(0)
         else s' == s.(wr := WTest(bytes, s.wpos, s.slots.readers == 0)) && r == Running
    case WriteTest =>
      && s.wr.WTest? && r == Running
      && s' == s.(wr := if s.wpos - s.rpos < BY2PIPE then WPut(s.wr.bytes, s.wr.start, s.wr.late)
                        else WFull(s.wr.bytes, s.wr.start, s.wr.late, s.slots.readers == 0))
    case WritePut =>
      && s.wr.WPut? && r == Running && |s.buf| == BY2PIPE && 0 <= s.wpos - s.wr.start < |s.wr.bytes|
      && s' == s.(wr := WCount(s.wr.bytes, s.wr.start, s.wr.late),
                  buf := s.buf[s.wpos % BY2PIPE := s.wr.bytes[s.wpos - s.wr.start]])
    case WriteCount =>
      && s.wr.WCount? && 0 <= s.wpos - s.wr.start < |s.wr.bytes|
      && var i := s.wpos + 1 - s.wr.start;
         && s' == s.(wpos := s.wpos + 1, written := s.written + [s.wr.bytes[i - 1]],
                     wr := if i == |s.wr.bytes| then WIdle else WTest(s.wr.bytes, s.wr.start, s.wr.late))
         && r == if i == |s.wr.bytes| then Returned(i) else Running
    case WriteAnswer(closed) =>
      && s.wr.WFull? && (closed <==> SaysClosed(s.slots.readers, s.slots))
      && s' == s.(wr := if closed then WIdle else WTest(s.wr.bytes, s.wr.start, s.wr.late))
      && r == if closed then Returned(s.wpos - s.wr.start) else Running
    case Others(t) =>
      && Moves(s.slots, t) && (!s.rd.RIdle? ==> t.readers > 0) && (!s.wr.WIdle? ==> t.writers > 0)
      && s' == s.(slots := t) && r == Running
  }

  // ---- the invariant ----

  ghost predicate RingOk(s: Sys) {
    && |s.buf| == BY2PIPE && 0 <= s.wpos - s.rpos <= BY2PIPE
    && |s.written| == s.wpos && s.delivered == s.written[..s.rpos]
    && forall k: nat {:trigger s.written[k]} :: s.rpos <= k < s.wpos ==> s.buf[k % BY2PIPE] == s.written[k]
  }

  ghost predicate ReaderOk(s: Sys)
    requires RingOk(s)
  {
    match s.rd
    case RIdle => true
    case RTest(n, start, late) => start <= s.rpos < start + n && (late ==> s.slots.writers == 0)
    case RCopy(n, start, late) => start <= s.rpos < start + n && (late ==> s.slots.writers == 0) && s.rpos < s.wpos
    case RCount(n, start, late, got) =>
      && start <= s.rpos < start + n && (late ==> s.slots.writers == 0)
      && s.rpos < s.wpos && got == s.written[s.rpos]
    case REmpty(n, start, late, sealed) =>
      && start <= s.rpos < start + n && (late ==> sealed)
      && (sealed ==> s.slots.writers == 0 && s.rpos == s.wpos)
  }

  ghost predicate WriterOk(s: Sys)
    requires RingOk(s)
  {
    && (!s.wr.WIdle? ==>
          && s.slots.writers > 0 && s.wr.start <= s.wpos < s.wr.start + |s.wr.bytes|
          && s.written[s.wr.start..] == s.wr.bytes[..s.wpos - s.wr.start])
    && (s.wr.WPut? || s.wr.WCount? ==> s.wpos - s.rpos < BY2PIPE)
    && (!s.wr.WIdle? && s.wr.late ==> s.slots.readers == 0)
    && (s.wr.WFull? ==>
          (s.wr.late ==> s.wr.sealed) && (s.wr.sealed ==> s.slots.readers == 0 && s.wpos - s.rpos == BY2PIPE))
    && (s.wr.WCount? ==> s.buf[s.wpos % BY2PIPE] == s.wr.bytes[s.wpos - s.wr.start])
  }

  ghost predicate Inv(s: Sys) { RingOk(s) && ReaderOk(s) && WriterOk(s) && (!s.rd.RIdle? ==> s.slots.readers > 0) }

  /** A byte put at the writing position is not one in flight. */
  lemma PutRing(s: Sys, b: Byte)
    requires RingOk(s) && s.wpos - s.rpos < BY2PIPE
    ensures RingOk(s.(buf := s.buf[s.wpos % BY2PIPE := b]))
  {
    forall k: nat | s.rpos <= k < s.wpos ensures k % BY2PIPE != s.wpos % BY2PIPE {}
  }

  lemma CountRing(s: Sys, b: Byte)
    requires RingOk(s) && s.wpos - s.rpos < BY2PIPE && s.buf[s.wpos % BY2PIPE] == b
    ensures RingOk(s.(wpos := s.wpos + 1, written := s.written + [b]))
  {
    assert (s.written + [b])[..s.rpos] == s.written[..s.rpos];
  }

  lemma TakeRing(s: Sys, b: Byte)
    requires RingOk(s) && s.rpos < s.wpos && b == s.written[s.rpos]
    ensures RingOk(s.(rpos := s.rpos + 1, delivered := s.delivered + [b]))
  {
    assert s.written[..s.rpos] + [s.written[s.rpos]] == s.written[..s.rpos + 1];
  }

  lemma RingStep(s: Sys, s': Sys, a: Act, r: Return)
    requires Inv(s) && Step(s, s', a, r)
    ensures RingOk(s')
  {
    match a
    case ReadCount => TakeRing(s, s.rd.got);
    case WritePut => PutRing(s, s.wr.bytes[s.wpos - s.wr.start]);
    case WriteCount => CountRing(s, s.wr.bytes[s.wpos - s.wr.start]);
    case _ =>
  }

  lemma WrittenSince(s: Sys, s': Sys)
    requires Inv(s) && !s.wr.WIdle? && s'.written == s.written + [s.wr.bytes[s.wpos - s.wr.start]]
    ensures s'.written[s.wr.start..] == s.wr.bytes[..s.wpos + 1 - s.wr.start]
  {
    assert s'.written[s.wr.start..] == s.written[s.wr.start..] + [s.wr.bytes[s.wpos - s.wr.start]];
  }

  lemma StepInv(s: Sys, s': Sys, a: Act, r: Return)
    requires Inv(s) && Step(s, s', a, r)
    ensures Inv(s')
  {
    RingStep(s, s', a, r);
    assert ReaderOk(s') by { hide WriterOk; }
    assert WriterOk(s') by {
      hide ReaderOk;
      if a.WriteCount? { WrittenSince(s, s'); }
    }
  }

  // ---- runs ----

  datatype Event = Event(act: Act, ret: Return)

  ghost predicate Run(states: seq<Sys>, events: seq<Event>) {
    && |states| == |events| + 1
    && forall i: nat {:trigger events[i]} ::
         i < |events| ==> Step(states[i], states[i + 1], events[i].act, events[i].ret)
  }

  ghost predicate Init(s: Sys) {
    && |s.buf| == BY2PIPE && s.rpos == s.wpos == 0 && s.rd == RIdle && s.wr == WIdle
    && s.slots.readers > 0 && s.slots.writers > 0 && s.written == [] && s.delivered == []
  }

  /** Over every run: at most 32 bytes are in flight, and what has been read is a prefix of what was written. */
  lemma {:induction false} Fifo(states: seq<Sys>, events: seq<Event>, i: nat)
    requires Run(states, events) && Init(states[0]) && i <= |events|
    ensures Inv(states[i])
    ensures 0 <= states[i].wpos - states[i].rpos <= BY2PIPE
    ensures states[i].delivered <= states[i].written
  {
    if i > 0 {
      Fifo(states, events, i - 1);
      StepInv(states[i - 1], states[i], events[i - 1].act, events[i - 1].ret);
    }
  }

  // ---- what the calls return ----

  /** When "closed" is the answer although the opposite end has `opposite` slots: the guard of
      PipeClose.WrongAnswerIff. */
  predicate Misled(opposite: nat, t: Slots) { opposite != 0 && t.waiting == opposite + t.late }

  /**
    A read returns the count of bytes delivered since it began: all it asked for, or fewer exactly when its close
    check says "closed", which is wrong, a writer being there, exactly when the forks under way have as many slots
    waiting for their data page as there are writers and half-closed slots. One that began after the writers had
    closed returns exactly the rest, up to what it asked for.
   */
  lemma ReadReturns(s: Sys, s': Sys, a: Act, r: Return)
    requires Inv(s) && Step(s, s', a, r) && r.Returned? && !s.rd.RIdle? && s'.rd.RIdle?
    ensures s'.rpos == s.rd.start + r.count && 0 <= r.count <= s.rd.n
    ensures s'.delivered[s.rd.start..] == s.written[s.rd.start..s.rd.start + r.count]
    ensures r.count < s.rd.n <==> a == ReadAnswer(true)
    ensures r.count < s.rd.n ==> SaysClosed(s.slots.writers, s.slots)
    ensures r.count < s.rd.n ==> (s.slots.writers > 0 <==> Misled(s.slots.writers, s.slots))
    ensures r.count < s.rd.n && s.slots.waiting == 0 ==> s.slots.writers == 0
    ensures s.rd.late ==> r.count == if s.rd.n <= s.wpos - s.rd.start then s.rd.n else s.wpos - s.rd.start
  {
    StepInv(s, s', a, r);
    assert s'.written == s.written;
  }

  /** A write appends exactly the first `count` of its bytes: all of them, or fewer exactly when its check says
      "closed"; wrong in the same case. One that began after the readers had closed fills the ring, or has room for
      all. */
  lemma WriteReturns(s: Sys, s': Sys, a: Act, r: Return)
    requires Inv(s) && Step(s, s', a, r) && r.Returned? && !s.wr.WIdle? && s'.wr.WIdle?
    ensures 0 <= r.count <= |s.wr.bytes| && s'.wpos == s.wr.start + r.count
    ensures s'.written[s.wr.start..] == s.wr.bytes[..r.count]
    ensures r.count < |s.wr.bytes| <==> a == WriteAnswer(true)
    ensures r.count < |s.wr.bytes| ==> SaysClosed(s.slots.readers, s.slots)
    ensures r.count < |s.wr.bytes| ==> (s.slots.readers > 0 <==> Misled(s.slots.readers, s.slots))
    ensures r.count < |s.wr.bytes| && s.slots.waiting == 0 ==> s.slots.readers == 0
    ensures s.wr.late ==> var room := BY2PIPE - (s.wr.start - s'.rpos);
      r.count == if |s.wr.bytes| <= room then |s.wr.bytes| else room
  {
    if a.WriteCount? { WrittenSince(s, s'); }
  }

  predicate ReaderAct(a: Act) { a.ReadStart? || a.ReadTest? || a.ReadCopy? || a.ReadCount? || a.ReadAnswer? }
  predicate WriterAct(a: Act) { a.WriteStart? || a.WriteTest? || a.WritePut? || a.WriteCount? || a.WriteAnswer? }

  /** A call returns with the step that ends it, and for no bytes at once, with 0. */
  lemma ReturnsOnce(s: Sys, s': Sys, a: Act, r: Return)
    requires Step(s, s', a, r)
    ensures r.Returned? <==> (ReaderAct(a) && s'.rd.RIdle?) || (WriterAct(a) && s'.wr.WIdle?)
    ensures a.ReadStart? ==> (a.n == 0 <==> r == Returned(0)) && (a.n == 0 ==> s' == s)
    ensures a.WriteStart? ==> (a.bytes == [] <==> r == Returned(0)) && (a.bytes == [] ==> s' == s)
  {}

  /** Neither loop gets stuck. */
  lemma NeverStuck(s: Sys)
    requires Inv(s)
    ensures !s.rd.RIdle? ==> exists s', a, r :: Step(s, s', a, r) && ReaderAct(a)
    ensures !s.wr.WIdle? ==> exists s', a, r :: Step(s, s', a, r) && WriterAct(a)
  {
    hide Inv, Step;
    if !s.rd.RIdle? { ReaderGoesOn(s); }
    if !s.wr.WIdle? { WriterGoesOn(s); }
  }

  lemma ReaderGoesOn(s: Sys)
    requires Inv(s) && !s.rd.RIdle?
    ensures exists s', a, r :: Step(s, s', a, r) && ReaderAct(a)
  {
    match s.rd
    case RTest(n, start, late) =>
      var next := if s.rpos < s.wpos then RCopy(n, start, late) else REmpty(n, start, late, s.slots.writers == 0);
      assert Step(s, s.(rd := next), ReadTest, Running);
    case RCopy(n, start, late) =>
      assert Step(s, s.(rd := RCount(n, start, late, s.buf[s.rpos % BY2PIPE])), ReadCopy, Running);
    case RCount(n, start, late, got) =>
      var i := s.rpos + 1 - start;
      var next := if i == n then RIdle else RTest(n, start, late);
      assert Step(s, s.(rpos := s.rpos + 1, delivered := s.delivered + [got], rd := next), ReadCount,
                  if i == n then Returned(n) else Running);
    case REmpty(n, start, late, sealed) =>
      var closed := SaysClosed(s.slots.writers, s.slots);
      assert Step(s, s.(rd := if closed then RIdle else RTest(n, start, late)), ReadAnswer(closed),
                  if closed then Returned(s.rpos - start) else Running);
  }

  lemma WriterGoesOn(s: Sys)
    requires Inv(s) && !s.wr.WIdle?
    ensures exists s', a, r :: Step(s, s', a, r) && WriterAct(a)
  {
    var b, start, late := s.wr.bytes, s.wr.start, s.wr.late;
    var i := s.wpos + 1 - start;
    match s.wr
    case WTest(_, _, _) =>
      var next := if s.wpos - s.rpos < BY2PIPE then WPut(b, start, late)
                  else WFull(b, start, late, s.slots.readers == 0);
      assert Step(s, s.(wr := next), WriteTest, Running);
    case WPut(_, _, _) =>
      assert Step(s, s.(wr := WCount(b, start, late), buf := s.buf[s.wpos % BY2PIPE := b[i - 1]]), WritePut, Running);
    case WCount(_, _, _) =>
      var next := if i == |b| then WIdle else WTest(b, start, late);
      assert Step(s, s.(wpos := s.wpos + 1, written := s.written + [b[i - 1]], wr := next), WriteCount,
                  if i == |b| then Returned(i) else Running);
    case WFull(_, _, _, _) =>
      var closed := SaysClosed(s.slots.readers, s.slots);
      assert Step(s, s.(wr := if closed then WIdle else WTest(b, start, late)), WriteAnswer(closed),
                  if closed then Returned(s.wpos - start) else Running);
  }

  /** A test fails exactly on an empty ring, and on a full one. */
  lemma TestSays(s: Sys, s': Sys, a: Act, r: Return)
    requires Inv(s) && Step(s, s', a, r)
    ensures a == ReadTest ==>
      (s'.rd.REmpty? <==> s.delivered == s.written) && (s'.rd.RCopy? <==> s.delivered < s.written)
    ensures a == WriteTest ==>
      (s'.wr.WFull? <==> |s.written| - |s.delivered| == 32) && (s'.wr.WPut? <==> |s.written| - |s.delivered| < 32)
  {
    assert s.written[..s.wpos] == s.written;
  }

  /** An end that nobody has open stands still. */
  lemma {:induction false} StandsStill(states: seq<Sys>, events: seq<Event>, i: nat, j: nat)
    requires Run(states, events) && i <= j <= |events| && Inv(states[i])
    ensures Inv(states[j])
    ensures states[i].slots.readers == 0 ==>
      states[j].slots.readers == 0 && states[j].rd.RIdle? && states[j].rpos == states[i].rpos
    ensures states[i].slots.writers == 0 ==>
      states[j].slots.writers == 0 && states[j].wr.WIdle? && states[j].wpos == states[i].wpos
  {
    if i < j {
      StandsStill(states, events, i, j - 1);
      StepInv(states[j - 1], states[j], events[j - 1].act, events[j - 1].ret);
    }
  }

  /** While a call is not over it has the arguments it began with. */
  lemma {:induction false} SameCall(states: seq<Sys>, events: seq<Event>, i: nat, j: nat)
    requires Run(states, events) && i < j <= |events|
    requires forall k: nat :: i < k < j ==> !states[k].rd.RIdle?
    ensures events[i].act.ReadStart? && !states[j].rd.RIdle? ==>
      && states[j].rd.n == events[i].act.n && states[j].rd.start == states[i].rpos
      && states[j].rd.late == (states[i].slots.writers == 0)
  {
    assert Step(states[j - 1], states[j], events[j - 1].act, events[j - 1].ret);
    if j > i + 1 { SameCall(states, events, i, j - 1); }
  }

  lemma {:induction false} SameWrite(states: seq<Sys>, events: seq<Event>, i: nat, j: nat)
    requires Run(states, events) && i < j <= |events|
    requires forall k: nat :: i < k < j ==> !states[k].wr.WIdle?
    ensures events[i].act.WriteStart? && !states[j].wr.WIdle? ==>
      && states[j].wr.bytes == events[i].act.bytes && states[j].wr.start == states[i].wpos
      && states[j].wr.late == (states[i].slots.readers == 0)
  {
    assert Step(states[j - 1], states[j], events[j - 1].act, events[j - 1].ret);
    if j > i + 1 { SameWrite(states, events, i, j - 1); }
  }

  function Min(a: int, b: int): int { if a < b then a else b }

  /** A read begun when no writer was left gets what was in the ring then, up to what it asks for. */
  lemma LateRead(states: seq<Sys>, events: seq<Event>, i: nat, j: nat)
    requires Run(states, events) && i < j < |events| && Inv(states[i])
    requires events[i].act.ReadStart? && states[i].slots.writers == 0
    requires (forall k: nat :: i < k <= j ==> !states[k].rd.RIdle?) && states[j + 1].rd.RIdle?
    ensures events[j].ret == Returned(Min(events[i].act.n, states[i].wpos - states[i].rpos))
  {
    SameCall(states, events, i, j);
    StandsStill(states, events, i, j);
    var s, s', a, r := states[j], states[j + 1], events[j].act, events[j].ret;
    assert Step(s, s', a, r) && r.Returned?;
    ReadReturns(s, s', a, r);
  }

  /** A write begun when no reader was left fills what room there was then, up to what it has. */
  lemma LateWrite(states: seq<Sys>, events: seq<Event>, i: nat, j: nat)
    requires Run(states, events) && i < j < |events| && Inv(states[i])
    requires events[i].act.WriteStart? && states[i].slots.readers == 0
    requires (forall k: nat :: i < k <= j ==> !states[k].wr.WIdle?) && states[j + 1].wr.WIdle?
    ensures events[j].ret == Returned(Min(|events[i].act.bytes|, 32 - (states[i].wpos - states[i].rpos)))
  {
    SameWrite(states, events, i, j);
    StandsStill(states, events, i, j);
    var s, s', a, r := states[j], states[j + 1], events[j].act, events[j].ret;
    assert Step(s, s', a, r) && r.Returned?;
    WriteReturns(s, s', a, r);
  }

  // ---- the early end of file ----

  /** Whether a stretch of a run contains the step that makes a written byte visible. */
  ghost predicate Counted(events: seq<Event>, i: nat, j: nat)
    requires j <= |events|
  {
    exists k: nat :: i <= k < j && events[k].act == WriteCount
  }

  /** From a failed test to the close check the reader stands still, so what it leaves behind is exactly
      what was counted in between. */
  lemma {:induction false} LeftBehind(states: seq<Sys>, events: seq<Event>, i: nat, j: nat)
    requires Run(states, events) && i < j <= |events|
    requires states[i].rpos == states[i].wpos && events[i].act == ReadTest
    requires forall k: nat {:trigger events[k]} :: i < k < j ==> !events[k].act.ReadAnswer?
    ensures states[j].rd.REmpty? && states[j].rpos == states[i].rpos <= states[j].wpos
    ensures states[j].rpos == states[j].wpos <==> !Counted(events, i, j)
  {
    assert Step(states[j - 1], states[j], events[j - 1].act, events[j - 1].ret);
    if j == i + 1 {
    } else {
      LeftBehind(states, events, i, j - 1);
      assert Counted(events, i, j) <==> Counted(events, i, j - 1) || events[j - 1].act == WriteCount;
    }
  }

  /** A short read leaves nothing behind exactly when no byte was counted between its last test and its
      close check. */
  lemma ShortReadIff(states: seq<Sys>, events: seq<Event>, i: nat, j: nat)
    requires Run(states, events) && i < j < |events|
    requires states[i].rpos == states[i].wpos && events[i].act == ReadTest
    requires forall k: nat {:trigger events[k]} :: i < k < j ==> !events[k].act.ReadAnswer?
    requires events[j].act == ReadAnswer(true)
    ensures states[j + 1].rd.RIdle? && events[j].ret.Returned?
    ensures states[j + 1].rpos == states[j + 1].wpos <==> !Counted(events, i, j)
  {
    LeftBehind(states, events, i, j);
    assert Step(states[j], states[j + 1], events[j].act, events[j].ret);
  }

  /** Whether a stretch of a run contains the step that makes a byte's place free. */
  ghost predicate Taken(events: seq<Event>, i: nat, j: nat)
    requires j <= |events|
  {
    exists k: nat :: i <= k < j && events[k].act == ReadCount
  }

  /** From a failed test to the close check the writer stands still: the ring stays full unless a byte is taken. */
  lemma {:induction false} StaysFull(states: seq<Sys>, events: seq<Event>, i: nat, j: nat)
    requires Run(states, events) && i < j <= |events| && Inv(states[i])
    requires states[i].wpos - states[i].rpos == BY2PIPE && events[i].act == WriteTest
    requires forall k: nat {:trigger events[k]} :: i < k < j ==> !events[k].act.WriteAnswer?
    ensures states[j].wr.WFull? && states[j].wpos == states[i].wpos && states[i].rpos <= states[j].rpos
    ensures states[j].wpos - states[j].rpos == BY2PIPE <==> !Taken(events, i, j)
  {
    assert Step(states[j - 1], states[j], events[j - 1].act, events[j - 1].ret);
    if j > i + 1 {
      StaysFull(states, events, i, j - 1);
      assert Taken(events, i, j) <==> Taken(events, i, j - 1) || events[j - 1].act == ReadCount;
    }
  }

  /** A write cut short leaves the ring full exactly when no byte was taken between its last test and its check. */
  lemma ShortWriteIff(states: seq<Sys>, events: seq<Event>, i: nat, j: nat)
    requires Run(states, events) && i < j < |events| && Inv(states[i])
    requires states[i].wpos - states[i].rpos == BY2PIPE && events[i].act == WriteTest
    requires forall k: nat {:trigger events[k]} :: i < k < j ==> !events[k].act.WriteAnswer?
    requires events[j].act == WriteAnswer(true)
    ensures states[j + 1].wr.WIdle? && events[j].ret.Returned?
    ensures states[j + 1].wpos - states[j + 1].rpos == BY2PIPE <==> !Taken(events, i, j)
  {
    StaysFull(states, events, i, j);
    assert Step(states[j], states[j + 1], events[j].act, events[j].ret);
  }

  /** A run in which it does happen: test on empty, then write a byte, then close, then the check. The read
      returns 0 with a byte still in the buffer. */
  lemma EarlyEof(s: Sys, n: nat, b: Byte)
    requires Init(s) && n > 0
    ensures exists states: seq<Sys>, events: seq<Event> ::
              && Run(states, events) && states[0] == s && |events| == 8
              && events[7] == Event(ReadAnswer(true), Returned(0))
              && states[8].wpos - states[8].rpos == 1 && states[8].rd == RIdle
  {
    var s1 := s.(rd := RTest(n, 0, false));
    var s2 := s1.(rd := REmpty(n, 0, false, false));
    var s3 := s2.(wr := WTest([b], 0, false));
    var s4 := s3.(wr := WPut([b], 0, false));
    var s5 := s4.(wr := WCount([b], 0, false), buf := s.buf[0 := b]);
    var s6 := s5.(wr := WIdle, wpos := 1, written := [b]);
    var closed := s.slots.(writers := 0, late := 0, waiting := 0);
    var s7 := s6.(slots := closed);
    var s8 := s7.(rd := RIdle);
    var states := [s, s1, s2, s3, s4, s5, s6, s7, s8];
    var events := [Event(ReadStart(n), Running), Event(ReadTest, Running), Event(WriteStart([b]), Running),
                   Event(WriteTest, Running), Event(WritePut, Running), Event(WriteCount, Returned(1)),
                   Event(Others(closed), Running), Event(ReadAnswer(true), Returned(0))];
    forall i: nat | i < 8 ensures Step(states[i], states[i + 1], events[i].act, events[i].ret) {
      assert i == 0 || i == 1 || i == 2 || i == 3 || i == 4 || i == 5 || i == 6 || i == 7;
    }
    hide Step;
    assert Run(states, events);
  }

  /**
    A run in which a reader is misled: test on empty, then another holder of the read end begins to fork, then the
    check. The read returns 0 while the only writer has the pipe open and nothing is half-closed.
   */
  lemma MisledEof(s: Sys, n: nat) returns (states: seq<Sys>, events: seq<Event>)
    requires Init(s) && s.slots == Slots(2, 1, 0, 0) && n > 0
    ensures Run(states, events) && states[0] == s && |events| == 4
    ensures events[3] == Event(ReadAnswer(true), Returned(0)) && states[4].slots == Slots(3, 1, 0, 1)
  {
    var forking := Slots(3, 1, 0, 1);
    var s1 := s.(rd := RTest(n, 0, false));
    var s2 := s1.(rd := REmpty(n, 0, false, false));
    var s3 := s2.(slots := forking);
    states := [s, s1, s2, s3, s3.(rd := RIdle)];
    events := [Event(ReadStart(n), Running), Event(ReadTest, Running), Event(Others(forking), Running),
               Event(ReadAnswer(true), Returned(0))];
    forall i: nat | i < 4 ensures Step(states[i], states[i + 1], events[i].act, events[i].ret) {
      assert i == 0 || i == 1 || i == 2 || i == 3;
    }
  }

  // ---- the loops themselves, with the other end gone ----

  /** The bytes of a ring between two positions, oldest first. */
  function Ring(buf: seq<Byte>, rpos: nat, wpos: nat): (c: seq<Byte>)
    requires |buf| == BY2PIPE && rpos <= wpos
    ensures |c| == wpos - rpos && forall i :: 0 <= i < wpos - rpos ==> c[i] == buf[(rpos + i) % BY2PIPE]
  {
    seq(wpos - rpos, i requires 0 <= i => buf[(rpos + i) % BY2PIPE])
  }

  lemma RingTake(buf: seq<Byte>, rpos: nat, wpos: nat)
    requires |buf| == BY2PIPE && rpos < wpos
    ensures Ring(buf, rpos, wpos) == [buf[rpos % BY2PIPE]] + Ring(buf, rpos + 1, wpos)
  {}

  lemma RingPut(buf: seq<Byte>, rpos: nat, wpos: nat, b: Byte)
    requires |buf| == BY2PIPE && rpos <= wpos < rpos + BY2PIPE
    ensures Ring(buf[wpos % BY2PIPE := b], rpos, wpos + 1) == Ring(buf, rpos, wpos) + [b]
  {}

  /** The shared page. */
  class Pipe {
    var rpos: nat
    var wpos: nat
    const buf: array<Byte>

    ghost predicate Valid() reads this {
      buf.Length == BY2PIPE && rpos <= wpos <= rpos + BY2PIPE
    }

    /** The bytes in flight. */
    ghost function Contents(): (c: seq<Byte>)
      requires Valid()
      reads this, buf
      ensures |c| == wpos - rpos
    { Ring(buf[..], rpos, wpos) }

    constructor ()
      ensures Valid() && Contents() == [] && fresh(buf)
    {
      rpos, wpos := 0, 0;
      buf := new Byte[BY2PIPE](_ => 0);
    }

    /** One byte of pipe_read's loop. */
    method ReadByte(vbuf: array<Byte>, i: nat)
      requires Valid() && rpos < wpos && i < vbuf.Length && vbuf != buf
      modifies this`rpos, vbuf
      ensures Valid() && rpos == old(rpos) + 1
      ensures vbuf[..] == old(vbuf[..])[i := old(Contents())[0]] && Contents() == old(Contents())[1..]
    {
      RingTake(buf[..], rpos, wpos);
      hide Ring;
      ghost var before := vbuf[..];
      vbuf[i] := buf[rpos % BY2PIPE];
      assert vbuf[..] == before[i := buf[rpos % BY2PIPE]];
      rpos := rpos + 1;
    }

    /** pipe_read when no writer is left: takes the oldest bytes, as many as asked for or as there are. */
    method Read(n: nat, vbuf: array<Byte>) returns (i: nat)
      requires Valid() && n <= vbuf.Length && vbuf != buf
      modifies this`rpos, vbuf
      ensures Valid()
      ensures i == if n <= |old(Contents())| then n else |old(Contents())|
      ensures vbuf[..] == old(Contents())[..i] + old(vbuf[..])[i..]
      ensures Contents() == old(Contents())[i..]
    {
      i := 0;
      ghost var all, was := Contents(), vbuf[..];
      if n == 0 { return 0; }
      hide Ring;
      while true
        invariant Valid() && i < n && i <= |all| && rpos == old(rpos) + i
        invariant vbuf[..] == all[..i] + was[i..] && Contents() == all[i..]
        decreases wpos - rpos
      {
        if rpos < wpos {
          Moved(all, was, i, all[i]);
          ReadByte(vbuf, i);
          i := i + 1;
          if i == n { return; }
        } else {
          return;
        }
      }
    }

    /** pipe_write when no reader is left: appends what fits. */
    method Write(bytes: seq<Byte>) returns (i: nat)
      requires Valid()
      modifies this`wpos, buf
      ensures Valid()
      ensures var room := BY2PIPE - |old(Contents())|; i == if |bytes| <= room then |bytes| else room
      ensures Contents() == old(Contents()) + bytes[..i]
    {
      i := 0;
      ghost var all := Contents();
      assert all + bytes[..0] == all;
      if |bytes| == 0 { return 0; }
      hide Ring;
      while true
        invariant Valid() && i < |bytes| && wpos == old(wpos) + i && rpos == old(rpos)
        invariant Contents() == all + bytes[..i]
        decreases rpos + BY2PIPE - wpos
      {
        if wpos - rpos < BY2PIPE {
          RingPut(buf[..], rpos, wpos, bytes[i]);
          Longer(all, bytes, i);
          ghost var before := buf[..];
          buf[wpos % BY2PIPE] := bytes[i];
          assert buf[..] == before[wpos % BY2PIPE := bytes[i]];
          wpos := wpos + 1;
          i := i + 1;
          if i == |bytes| { return; }
        } else {
          return;
        }
      }
    }
  }

  lemma Longer(all: seq<Byte>, bytes: seq<Byte>, i: nat)
    requires i < |bytes|
    ensures all + bytes[..i] + [bytes[i]] == all + bytes[..i + 1]
  {}

  /** Byte `i` of the stream moved to the reader's buffer. */
  lemma Moved(all: seq<Byte>, was: seq<Byte>, i: nat, b: Byte)
    requires i < |all| && i < |was| && all[i] == b
    ensures (all[..i] + was[i..])[i := b] == all[..i + 1] + was[i + 1..]
    ensures all[i..] == [b] + all[i + 1..] && all[i..][0] == b && all[i..][1..] == all[i + 1..]
  {}
}
