/** The stand-alone ring of onewaybuffer.c: a writer that publishes its words late, a
    reader, and a step for each access to a shared word. */
module OneWayRing {
  import opened Basics

  const SIZE := 16              // ONEWAY_BUFFER_SIZE
  const FLUSH_COUNT := 8        // BUFFER_FLUSH_COUNT

  datatype WriterPc =
    | Ready
    | Wait(batch: seq<nat>, force: bool)             // spinning for room
    | Copy(batch: seq<nat>, force: bool, i: nat)
    | Bump(batch: seq<nat>, force: bool)             // tmp_wr_index += write_count
    | Publish                                        // buffer_flush: wr_index = tmp_wr_index

  datatype ReaderPc =
    | Out
    | Fetch(count: nat, buf: seq<nat>)
    | Advance(buf: seq<nat>)

  /** `written` and `got` are history.  The counters are kept unbounded; the code has them
      modulo 2^64, which matters to its two comparisons and to nothing else here: SIZE
      divides 2^64, and the reader's count is a difference. */
  datatype State = State(
    data: seq<nat>, rd: nat, wr: nat, tmp: nat, writer: WriterPc, reader: ReaderPc, written: seq<nat>, got: seq<nat>)

  datatype Step =
    | Write(batch: seq<nat>, force: bool)   // buffer_write_all, or buffer_write of one word
    | Flush
    | Read(max: nat)                        // buffer_read_all
    | WriterGo | ReaderGo

  function Start(): State {
    State(seq(SIZE, _ => 0), 0, 0, 0, Ready, Out, [], [])
  }

  /** a >= b on unsigned long. */
  predicate AtLeast(a: nat, b: nat) {
    a % WRAP >= b % WRAP
  }

  /** The loop test of the writer. */
  predicate MustWait(tmp: nat, count: nat, rd: nat)
    requires count > 0
  {
    AtLeast(tmp + count - 1, rd + SIZE)
  }

  /** The test that decides whether a write publishes. */
  predicate MustFlush(tmp: nat, wr: nat) {
    AtLeast(tmp, wr + FLUSH_COUNT)
  }

  function WriterStep(st: State): State
    requires |st.data| == SIZE
  {
    match st.writer
    case Ready => st
    case Wait(batch, force) =>
      if batch != [] && MustWait(st.tmp, |batch|, st.rd) then st else st.(writer := Copy(batch, force, 0))
    case Copy(batch, force, i) =>
      if i < |batch| then st.(data := st.data[(st.tmp + i) % SIZE := batch[i]], writer := Copy(batch, force, i + 1))
      else st.(writer := Bump(batch, force))
    case Bump(batch, force) =>
      var tmp := st.tmp + |batch|;
      st.(tmp := tmp, written := st.written + batch,
          writer := if force || MustFlush(tmp, st.wr) then Publish else Ready)
    case Publish => st.(wr := st.tmp, writer := Ready)
  }

  function ReaderStep(st: State): State
    requires |st.data| == SIZE
  {
    match st.reader
    case Out => st
    case Fetch(count, buf) =>
      if |buf| < count then st.(reader := Fetch(count, buf + [st.data[(st.rd + |buf|) % SIZE]]))
      else st.(reader := Advance(buf))
    case Advance(buf) => st.(rd := st.rd + |buf|, got := st.got + buf, reader := Out)
  }

  function Apply(st: State, step: Step): State
    requires |st.data| == SIZE
  {
    match step
    case Write(batch, force) => if st.writer.Ready? then st.(writer := Wait(batch, force)) else st
    case Flush => if st.writer.Ready? then st.(writer := Publish) else st
    case Read(max) =>
      if st.reader.Out? && st.rd < st.wr then
        st.(reader := Fetch(if max < st.wr - st.rd then max else st.wr - st.rd, []))
      else st
    case WriterGo => WriterStep(st)
    case ReaderGo => ReaderStep(st)
  }

  function After(steps: seq<Step>): (st: State)
    ensures |st.data| == SIZE
  {
    if steps == [] then Start() else Apply(After(steps[..|steps| - 1]), steps[|steps| - 1])
  }

  /** Calls write between 1 and ONEWAY_BUFFER_SIZE words. */
  ghost predicate Legal(steps: seq<Step>) {
    forall i :: 0 <= i < |steps| && steps[i].Write? ==> 1 <= |steps[i].batch| <= SIZE
  }

  // The invariant.

  ghost predicate Stored(data: seq<nat>, words: seq<nat>, lo: nat)
    requires |data| == SIZE
  {
    forall k :: lo <= k < |words| ==> data[k % SIZE] == words[k]
  }

  ghost predicate WriterOk(st: State)
    requires |st.data| == SIZE
  {
    match st.writer
    case Ready => true
    case Wait(batch, _) => 1 <= |batch| <= SIZE
    case Copy(batch, _, i) =>
      i <= |batch| && st.tmp + |batch| <= st.rd + SIZE && Stored(st.data, st.written + batch[..i], st.rd)
    case Bump(batch, _) => st.tmp + |batch| <= st.rd + SIZE && Stored(st.data, st.written + batch, st.rd)
    case Publish => true
  }

  ghost predicate ReaderOk(st: State) {
    match st.reader
    case Out => true
    case Fetch(count, buf) =>
      st.rd + count <= st.wr && |buf| <= count && st.rd + |buf| <= |st.written|
      && buf == st.written[st.rd..st.rd + |buf|]
    case Advance(buf) =>
      st.rd + |buf| <= st.wr && st.rd + |buf| <= |st.written|
      && buf == st.written[st.rd..st.rd + |buf|]
  }

  ghost predicate Inv(st: State) {
    && |st.data| == SIZE
    && st.rd <= st.wr <= st.tmp <= st.rd + SIZE
    && |st.written| == st.tmp && |st.got| == st.rd && st.got == st.written[..st.rd]
    && Stored(st.data, st.written, st.rd)
    && WriterOk(st) && ReaderOk(st)
  }

  /** An unsigned comparison of numbers less than 2^64 apart is exact if and only if both
      have wrapped equally often. */
  lemma AtLeastIff(a: nat, b: nat)
    requires a < b + WRAP && b < a + WRAP
    ensures (AtLeast(a, b) <==> a >= b) <==> a / WRAP == b / WRAP
    ensures a / WRAP > b / WRAP ==> !AtLeast(a, b) && a >= b
    ensures a / WRAP < b / WRAP ==> AtLeast(a, b) && a < b
  {
  }

  /** The room test is exact if and only if neither of its sides has wrapped alone. */
  lemma RoomTestIff(tmp: nat, count: nat, rd: nat)
    requires 1 <= count <= SIZE && rd <= tmp <= rd + SIZE
    ensures (MustWait(tmp, count, rd) <==> tmp + count > rd + SIZE)
            <==> (tmp + count - 1) / WRAP == (rd + SIZE) / WRAP
  {
    AtLeastIff(tmp + count - 1, rd + SIZE);
  }

  /** So is the flush test. */
  lemma FlushTestIff(tmp: nat, wr: nat)
    requires wr <= tmp <= wr + 2 * SIZE
    ensures (MustFlush(tmp, wr) <==> tmp >= wr + FLUSH_COUNT) <==> tmp / WRAP == (wr + FLUSH_COUNT) / WRAP
  {
    AtLeastIff(tmp, wr + FLUSH_COUNT);
  }

  /** The writer's side of the room test has wrapped and the reader's has not. */
  predicate Early(tmp: nat, count: nat, rd: nat)
    requires count > 0
  {
    (tmp + count - 1) / WRAP > (rd + SIZE) / WRAP
  }

  /** When the test lets a writer through, there is room if and only if it is not early. */
  lemma PassIsSafeIff(tmp: nat, count: nat, rd: nat)
    requires 1 <= count <= SIZE && rd <= tmp <= rd + SIZE
    ensures Early(tmp, count, rd) ==> !MustWait(tmp, count, rd)
    ensures !MustWait(tmp, count, rd) ==> (tmp + count <= rd + SIZE <==> !Early(tmp, count, rd))
  {
    AtLeastIff(tmp + count - 1, rd + SIZE);
  }

  ghost predicate PassesEarly(st: State, step: Step) {
    step.WriterGo? && st.writer.Wait? && st.writer.batch != [] && Early(st.tmp, |st.writer.batch|, st.rd)
  }

  /** No writer of the run passes the test early. */
  ghost predicate NeverEarly(steps: seq<Step>) {
    steps == [] || (NeverEarly(steps[..|steps| - 1]) && !PassesEarly(After(steps[..|steps| - 1]), steps[|steps| - 1]))
  }

  lemma CopyOk(st: State)
    requires Inv(st) && st.writer.Copy? && st.writer.i < |st.writer.batch|
    ensures Inv(WriterStep(st))
  {
    var batch, i, r := st.writer.batch, st.writer.i, WriterStep(st);
    var w := st.tmp + i;
    var old', all := st.written + batch[..i], st.written + batch[..i + 1];
    assert all[w] == batch[i];
    forall k | st.rd <= k < |all| ensures r.data[k % SIZE] == all[k] {
      if k < w { SlotsDiffer(k, w, SIZE); assert all[k] == old'[k]; }
    }
    forall k | st.rd <= k < st.tmp ensures r.data[k % SIZE] == st.written[k] { assert all[k] == st.written[k]; }
  }

  lemma WriterStepOk(st: State)
    requires Inv(st) && !PassesEarly(st, WriterGo)
    ensures Inv(WriterStep(st))
  {
    match st.writer
    case Ready =>
    case Wait(batch, _) =>
      PassIsSafeIff(st.tmp, |batch|, st.rd);
      assert st.written + batch[..0] == st.written;
    case Copy(batch, _, i) => if i < |batch| { CopyOk(st); } else { assert batch[..i] == batch; }
    case Bump(batch, _) => assert (st.written + batch)[..st.rd] == st.written[..st.rd];
    case Publish =>
  }

  lemma ReaderStepOk(st: State)
    requires Inv(st)
    ensures Inv(ReaderStep(st))
  {
    match st.reader
    case Out =>
    case Fetch(count, buf) =>
      if |buf| < count {
        var k := st.rd + |buf|;
        assert st.data[k % SIZE] == st.written[k];
        assert st.written[st.rd..k + 1] == st.written[st.rd..k] + [st.written[k]];
      }
    case Advance(buf) =>
      assert st.written[..st.rd + |buf|] == st.written[..st.rd] + buf;
      var r := ReaderStep(st);
      assert Stored(r.data, r.written, r.rd);
  }

  lemma StepOk(st: State, step: Step)
    requires Inv(st) && Legal([step]) && !PassesEarly(st, step)
    ensures Inv(Apply(st, step))
  {
    assert [step][0] == step;
    match step
    case WriterGo => WriterStepOk(st);
    case ReaderGo => ReaderStepOk(st);
    case _ =>
  }

  lemma {:induction false} RunOk(steps: seq<Step>)
    requires Legal(steps) && NeverEarly(steps)
    ensures Inv(After(steps))
  {
    if steps != [] {
      var init, step := steps[..|steps| - 1], steps[|steps| - 1];
      RunOk(init);
      assert Legal([step]);
      StepOk(After(init), step);
    }
  }

  /** In every interleaving in which no writer passes the room test early: the counters
      are ordered and at most SIZE apart, and the reader gets the written words in order,
      and only published ones. */
  lemma RingIsFifo(steps: seq<Step>)
    requires Legal(steps) && NeverEarly(steps)
    ensures var st := After(steps);
            && st.rd <= st.wr <= st.tmp <= st.rd + SIZE
            && st.got <= st.written && |st.got| == st.rd && |st.written| == st.tmp
  {
    RunOk(steps);
  }

  // What one call does, whatever the other side does meanwhile.

  lemma AfterSnoc(steps: seq<Step>, step: Step)
    ensures After(steps + [step]) == Apply(After(steps), step)
  {
    assert (steps + [step])[..|steps|] == steps;
  }

  /** The call that step begins after s is still going on before each of the steps in t. */
  ghost predicate ReadGoesOn(s: seq<Step>, t: seq<Step>) {
    forall k :: 0 <= k < |t| ==> !After(s + t[..k]).reader.Out?
  }

  ghost predicate WriteGoesOn(s: seq<Step>, t: seq<Step>) {
    forall k :: 0 <= k < |t| ==> !After(s + t[..k]).writer.Ready?
  }

  /** buffer_read_all of `count` words from position rd on. */
  ghost predicate InRead(st: State, rd: nat, got: seq<nat>, count: nat) {
    && st.rd == rd && st.got == got
    && match st.reader
       case Out => false
       case Fetch(c, buf) => c == count && |buf| <= count
       case Advance(buf) => |buf| == count
  }

  lemma ReadMoves(st: State, step: Step, rd: nat, got: seq<nat>, count: nat)
    requires Inv(st) && InRead(st, rd, got, count)
    ensures var r := Apply(st, step);
            || InRead(r, rd, got, count)
            || (r.reader.Out? && r.rd == rd + count && |r.got| == |got| + count && got <= r.got)
  {
  }

  lemma WithoutLast(s: seq<Step>, t: seq<Step>)
    requires t != [] && Legal(s + t) && NeverEarly(s + t) && ReadGoesOn(s, t)
    ensures var init := t[..|t| - 1];
            && s + t == s + init + [t[|t| - 1]] && Legal(s + init) && NeverEarly(s + init)
            && ReadGoesOn(s, init) && !After(s + init).reader.Out?
  {
    var init := t[..|t| - 1];
    assert (s + t)[..|s + t| - 1] == s + init;
    forall k | 0 <= k < |init| ensures !After(s + init[..k]).reader.Out? { assert init[..k] == t[..k]; }
  }

  lemma {:induction false} StillReading(s: seq<Step>, t: seq<Step>, rd: nat, got: seq<nat>, count: nat)
    requires Legal(s + t) && NeverEarly(s + t) && InRead(After(s), rd, got, count) && ReadGoesOn(s, t)
    ensures var r := After(s + t);
            || InRead(r, rd, got, count)
            || (r.reader.Out? && r.rd == rd + count && |r.got| == |got| + count && got <= r.got)
  {
    if t == [] {
      assert s + t == s;
    } else {
      var init, step := t[..|t| - 1], t[|t| - 1];
      WithoutLast(s, t);
      StillReading(s, init, rd, got, count);
      RunOk(s + init);
      AfterSnoc(s + init, step);
      ReadMoves(After(s + init), step, rd, got, count);
    }
  }

  /** A buffer_read_all that finds words delivers min(max, words published when it looked),
      the next ones in order. */
  lemma ReadDelivers(s: seq<Step>, max: nat, t: seq<Step>)
    requires Legal(s + [Read(max)] + t) && NeverEarly(s + [Read(max)] + t)
    requires After(s).reader.Out? && After(s).rd < After(s).wr
    requires ReadGoesOn(s + [Read(max)], t) && After(s + [Read(max)] + t).reader.Out?
    ensures var st, r := After(s), After(s + [Read(max)] + t);
            var m := if max < st.wr - st.rd then max else st.wr - st.rd;
            r.rd == st.rd + m <= |r.written| && r.got == st.got + r.written[st.rd..st.rd + m]
  {
    var st, r := After(s), After(s + [Read(max)] + t);
    var m := if max < st.wr - st.rd then max else st.wr - st.rd;
    AfterSnoc(s, Read(max));
    StillReading(s + [Read(max)], t, st.rd, st.got, m);
    RunOk(s + [Read(max)] + t);
    GotIsRead(s);
    NextWords(st.got, r.got, r.written, m);
  }

  lemma NextWords(before: seq<nat>, got: seq<nat>, written: seq<nat>, m: nat)
    requires before <= got && |got| == |before| + m <= |written| && got == written[..|got|]
    ensures got == before + written[|before|..|before| + m]
  {
  }

  lemma GotIsRead(s: seq<Step>)
    ensures |After(s).got| == After(s).rd
  {
    if s != [] { GotIsRead(s[..|s| - 1]); }
  }

  ghost predicate InWrite(st: State, before: State, batch: seq<nat>, force: bool) {
    && st.wr == before.wr
    && match st.writer
       case Ready => false
       case Wait(b, f) => b == batch && f == force && st.written == before.written && st.tmp == before.tmp
       case Copy(b, f, _) => b == batch && f == force && st.written == before.written && st.tmp == before.tmp
       case Bump(b, f) => b == batch && f == force && st.written == before.written && st.tmp == before.tmp
       case Publish =>
         && st.written == before.written + batch && st.tmp == before.tmp + |batch|
         && (force || MustFlush(st.tmp, before.wr))
  }

  /** A completed write: the words are there, and published if that was asked for or enough
      words have gathered. */
  ghost predicate Written(r: State, before: State, batch: seq<nat>, force: bool) {
    && r.written == before.written + batch && r.tmp == before.tmp + |batch|
    && r.wr == if force || r.tmp % 0x1_0000_0000_0000_0000 >= (before.wr + 8) % 0x1_0000_0000_0000_0000 then r.tmp
               else before.wr
  }

  lemma WriteMoves(st: State, step: Step, before: State, batch: seq<nat>, force: bool)
    requires |st.data| == SIZE && InWrite(st, before, batch, force)
    ensures var r := Apply(st, step);
            InWrite(r, before, batch, force) || (r.writer.Ready? && Written(r, before, batch, force))
  {
  }

  lemma {:induction false} WriteDelivers(s: seq<Step>, batch: seq<nat>, force: bool, t: seq<Step>)
    requires After(s).writer.Ready? && WriteGoesOn(s + [Write(batch, force)], t)
    ensures var r := After(s + [Write(batch, force)] + t);
            InWrite(r, After(s), batch, force) || (r.writer.Ready? && Written(r, After(s), batch, force))
  {
    var s' := s + [Write(batch, force)];
    if t == [] {
      AfterSnoc(s, Write(batch, force));
      assert s' + t == s';
    } else {
      var init, step := t[..|t| - 1], t[|t| - 1];
      assert forall k :: 0 <= k < |init| ==> init[..k] == t[..k];
      WriteDelivers(s, batch, force, init);
      assert s' + t[..|init|] == s' + init;
      WriteMoves(After(s' + init), step, After(s), batch, force);
      AfterSnoc(s' + init, step);
      assert s' + init + [step] == s' + t;
    }
  }

  /** A buffer_flush publishes all that is written. */
  lemma {:induction false} FlushDelivers(s: seq<Step>, t: seq<Step>)
    requires After(s).writer.Ready? && WriteGoesOn(s + [Flush], t)
    ensures var r := After(s + [Flush] + t);
            && r.tmp == After(s).tmp && r.written == After(s).written
            && (r.writer == Publish || (r.writer.Ready? && r.wr == r.tmp))
  {
    if t == [] {
      AfterSnoc(s, Flush);
      assert s + [Flush] + t == s + [Flush];
    } else {
      var init, step := t[..|t| - 1], t[|t| - 1];
      assert forall k :: 0 <= k < |init| ==> init[..k] == t[..k];
      FlushDelivers(s, init);
      AfterSnoc(s + [Flush] + init, step);
      assert s + [Flush] + init + [step] == s + [Flush] + t;
    }
  }

  /** The condition is exact: a writer that passes early stores a word of its batch over
      the oldest word the reader has not read. */
  lemma EarlyPassOverwrites(st: State)
    requires Inv(st) && PassesEarly(st, WriterGo)
    ensures var batch := st.writer.batch;
            var i := st.rd + SIZE - st.tmp;
            && WriterStep(st).writer.Copy?
            && st.rd < st.tmp && st.data[st.rd % SIZE] == st.written[st.rd]
            && 0 <= i < |batch|
            && WriterStep(st.(writer := Copy(batch, st.writer.force, i))).data[st.rd % SIZE] == batch[i]
  {
    PassIsSafeIff(st.tmp, |st.writer.batch|, st.rd);
    SameSlot(st.rd);
  }

  // How many words may be written before that can happen.

  /** The words written, with those of a call in progress. */
  function Offered(st: State): nat {
    st.tmp + (match st.writer
              case Wait(batch, _) => |batch|
              case Copy(batch, _, _) => |batch|
              case Bump(batch, _) => |batch|
              case _ => 0)
  }

  lemma OfferedGrows(st: State, step: Step)
    requires |st.data| == SIZE
    ensures Offered(st) <= Offered(Apply(st, step))
  {
  }

  lemma {:induction false} FewWordsAreNeverEarly(steps: seq<Step>)
    requires Legal(steps) && Offered(After(steps)) <= WRAP
    ensures NeverEarly(steps)
  {
    if steps != [] {
      var init := steps[..|steps| - 1];
      OfferedGrows(After(init), steps[|steps| - 1]);
      FewWordsAreNeverEarly(init);
    }
  }

  // A writer that waits, waits for the reader.

  ghost predicate Blocked(st: State) {
    st.writer.Wait? && st.writer.batch != [] && MustWait(st.tmp, |st.writer.batch|, st.rd)
  }

  /** Between calls fewer than FLUSH_COUNT words are unpublished. */
  ghost predicate Lag(st: State) {
    !st.writer.Publish? ==> st.tmp < st.wr + FLUSH_COUNT
  }

  lemma LagStep(st: State, step: Step)
    requires Inv(st) && Lag(st) && Apply(st, step).tmp + SIZE < WRAP
    ensures Lag(Apply(st, step))
  {
    if step.WriterGo? && st.writer.Bump? { FlushTestIff(st.tmp + |st.writer.batch|, st.wr); }
  }

  lemma WrittenGrows(st: State, step: Step)
    requires |st.data| == SIZE
    ensures |st.written| <= |Apply(st, step).written|
  {
  }

  lemma LagNext(st: State, step: Step)
    requires Inv(st) && Lag(st) && (step.Write? ==> 1 <= |step.batch| <= SIZE)
    requires |Apply(st, step).written| + SIZE < WRAP
    ensures Inv(Apply(st, step)) && Lag(Apply(st, step)) && |st.written| <= |Apply(st, step).written|
  {
    assert |st.written| <= |Apply(st, step).written|;
    assert Legal([step]);
    StepOk(st, step);
    LagStep(st, step);
  }

  lemma {:induction false} LagOk(steps: seq<Step>)
    requires Legal(steps) && |After(steps).written| + SIZE < WRAP
    ensures Inv(After(steps)) && Lag(After(steps))
  {
    if steps != [] {
      var init, step := steps[..|steps| - 1], steps[|steps| - 1];
      WrittenGrows(After(init), step);
      LagOk(init);
      LagNext(After(init), step);
    }
  }

  /** A writer blocked on n words while rd and wr are equal: fewer than FLUSH_COUNT and at
      most as many as were ever written are unpublished, so n is large. */
  lemma BlockedIsLarge(steps: seq<Step>)
    requires Legal(steps) && |After(steps).written| + SIZE < WRAP && Blocked(After(steps))
    ensures var st := After(steps);
            st.rd < st.wr || |st.writer.batch| + (if |st.written| < 7 then |st.written| else 7) > SIZE
  {
    LagOk(steps);
    var st := After(steps);
    RoomTestIff(st.tmp, |st.writer.batch|, st.rd);
  }

  // Schedules that reach the counters near 2^64.

  function Zeros(k: nat): seq<nat> {
    seq(k, _ => 0)
  }

  /** k zeros written, published and read. */
  function Quiet(k: nat): State {
    State(Zeros(SIZE), k, k, k, Ready, Out, Zeros(k), Zeros(k))
  }

  /** m more written, of which p published. */
  function Unread(k: nat, m: nat, p: nat): State {
    State(Zeros(SIZE), k, k + p, k + m, Ready, Out, Zeros(k + m), Zeros(k))
  }

  lemma CopyOne(st: State, batch: seq<nat>, force: bool, k: nat)
    requires |st.data| == SIZE && st.writer == Copy(batch, force, k) && k < |batch| && batch[k] == 0
             && st.data == Zeros(SIZE)
    ensures Apply(st, WriterGo) == st.(writer := Copy(batch, force, k + 1))
  {
    assert st.data[(st.tmp + k) % SIZE := 0] == st.data;
  }

  lemma MoreZeros(k: nat, m: nat)
    ensures Zeros(k) + Zeros(m) == Zeros(k + m)
  {
  }

  /** The states of a call that finds room and writes m zeros. */
  function Writing(k: nat, pc: WriterPc): State {
    Quiet(k).(writer := pc)
  }

  lemma BeginZeros(s: seq<Step>, k: nat, m: nat, force: bool) returns (t: seq<Step>)
    requires Legal(s) && After(s) == Quiet(k) && 1 <= m <= SIZE && !MustWait(k, m, k)
    ensures Legal(t) && After(t) == Writing(k, Copy(Zeros(m), force, 0))
  {
    AfterSnoc(s, Write(Zeros(m), force));
    t := s + [Write(Zeros(m), force)];
    AfterSnoc(t, WriterGo);
    t := t + [WriterGo];
  }

  lemma {:induction false} CopyZeros(s: seq<Step>, k: nat, m: nat, force: bool, i: nat) returns (t: seq<Step>)
    requires Legal(s) && After(s) == Writing(k, Copy(Zeros(m), force, 0)) && i <= m
    ensures Legal(t) && After(t) == Writing(k, Copy(Zeros(m), force, i))
  {
    if i == 0 {
      t := s;
    } else {
      t := CopyZeros(s, k, m, force, i - 1);
      AfterSnoc(t, WriterGo);
      t := t + [WriterGo];
      CopyOne(Writing(k, Copy(Zeros(m), force, i - 1)), Zeros(m), force, i - 1);
    }
  }

  lemma EndZeros(s: seq<Step>, k: nat, m: nat, force: bool) returns (t: seq<Step>)
    requires Legal(s) && After(s) == Writing(k, Copy(Zeros(m), force, m))
    requires !force ==> !MustFlush(k + m, k)
    ensures Legal(t) && After(t) == Unread(k, m, 0).(writer := if force then Publish else Ready)
  {
    AfterSnoc(s, WriterGo);
    t := s + [WriterGo];
    MoreZeros(k, m);
    AfterSnoc(t, WriterGo);
    t := t + [WriterGo];
  }

  /** A call that finds room and writes m zeros; it publishes them if forced to. */
  lemma WriteZeros(s: seq<Step>, k: nat, m: nat, force: bool) returns (t: seq<Step>)
    requires Legal(s) && After(s) == Quiet(k) && 1 <= m <= SIZE && !MustWait(k, m, k)
    requires !force ==> !MustFlush(k + m, k)
    ensures Legal(t) && After(t) == Unread(k, m, if force then m else 0)
  {
    t := BeginZeros(s, k, m, force);
    t := CopyZeros(t, k, m, force, m);
    t := EndZeros(t, k, m, force);
    if force {
      AfterSnoc(t, WriterGo);
      t := t + [WriterGo];
    }
  }

  lemma ReadWord(s: seq<Step>, st: State) returns (t: seq<Step>)
    requires Legal(s) && After(s) == st && |st.data| == SIZE && st.reader.Out? && st.rd < st.wr
    ensures Legal(t) && After(t) == st.(rd := st.rd + 1, got := st.got + [st.data[st.rd % SIZE]])
  {
    AfterSnoc(s, Read(1));
    t := s + [Read(1)];
    AfterSnoc(t, ReaderGo);
    t := t + [ReaderGo];
    FetchOne(st);
    AfterSnoc(t, ReaderGo);
    t := t + [ReaderGo];
    AfterSnoc(t, ReaderGo);
    t := t + [ReaderGo];
  }

  lemma FetchOne(st: State)
    requires |st.data| == SIZE && st.reader.Out? && st.rd < st.wr
    ensures var w := st.data[st.rd % SIZE];
            && Apply(st, Read(1)) == st.(reader := Fetch(1, []))
            && Apply(st.(reader := Fetch(1, [])), ReaderGo) == st.(reader := Fetch(1, [w]))
            && Apply(st.(reader := Fetch(1, [w])), ReaderGo) == st.(reader := Advance([w]))
            && Apply(st.(reader := Advance([w])), ReaderGo) == st.(rd := st.rd + 1, got := st.got + [w])
  {
    assert [] + [st.data[st.rd % SIZE]] == [st.data[st.rd % SIZE]];
  }

  /** Writing one word and reading it, k times over. */
  lemma {:induction false} Rounds(k: nat) returns (s: seq<Step>)
    requires k + SIZE <= WRAP
    ensures Legal(s) && After(s) == Quiet(k)
  {
    if k == 0 {
      s := [];
    } else {
      s := Rounds(k - 1);
      s := WriteZeros(s, k - 1, 1, true);
      s := ReadWord(s, Unread(k - 1, 1, 1));
      assert Zeros(k - 1) + [0] == Zeros(k);
    }
  }

  /** With 2^64 + 1 words the writer can overwrite an unread word: sixteen zeros wait to be
      read from counter 2^64 - 17 on, the test lets two ones in, and the reader then reads
      the first of them in place of the oldest zero. */
  lemma OverwrittenAtTheWrap() returns (s: seq<Step>)
    ensures Legal(s) && Offered(After(s)) == WRAP + 1
    ensures !(After(s).got <= After(s).written)
  {
    var k := WRAP - SIZE - 1;
    s := Rounds(k);
    s := WriteZeros(s, k, SIZE, true);
    s := OneOver(s, k);
    s := ReadWord(s, Overwritten(k));
    assert After(s).got[k] == 1 && After(s).written[k] == 0;
  }

  /** The ring is full, and the first of two ones has been stored over its oldest word. */
  function Overwritten(k: nat): State {
    Unread(k, SIZE, SIZE).(data := Zeros(SIZE)[k % SIZE := 1], writer := Copy([1, 1], true, 1))
  }

  lemma OneOver(s: seq<Step>, k: nat) returns (t: seq<Step>)
    requires Legal(s) && k == WRAP - SIZE - 1 && After(s) == Unread(k, SIZE, SIZE)
    ensures Legal(t) && After(t) == Overwritten(k)
  {
    AfterSnoc(s, Write([1, 1], true));
    t := s + [Write([1, 1], true)];
    AfterSnoc(t, WriterGo);
    t := t + [WriterGo];
    AfterSnoc(t, WriterGo);
    t := t + [WriterGo];
    StoreOver(k);
  }

  lemma StoreOver(k: nat)
    requires k == WRAP - SIZE - 1
    ensures var st := Unread(k, SIZE, SIZE);
            && Apply(st, Write([1, 1], true)) == st.(writer := Wait([1, 1], true))
            && Apply(st.(writer := Wait([1, 1], true)), WriterGo) == st.(writer := Copy([1, 1], true, 0))
            && Apply(st.(writer := Copy([1, 1], true, 0)), WriterGo) == Overwritten(k)
  {
    PassIsSafeIff(k + SIZE, 2, k);
    SameSlot(k);
  }

  lemma SameSlot(k: nat)
    ensures (k + SIZE) % SIZE == k % SIZE
  {
  }

  /** The ring is a FIFO for every schedule of at most `limit` words exactly when the limit
      is at most 2^64. */
  lemma FifoIffFewWords(limit: nat)
    ensures (forall steps :: Legal(steps) && Offered(After(steps)) <= limit ==>
               After(steps).got <= After(steps).written)
            <==> limit <= WRAP
  {
    if limit <= WRAP {
      forall steps | Legal(steps) && Offered(After(steps)) <= limit ensures After(steps).got <= After(steps).written {
        FewWordsAreNeverEarly(steps);
        RingIsFifo(steps);
      }
    } else {
      var steps := OverwrittenAtTheWrap();
      assert Legal(steps) && Offered(After(steps)) <= limit;
    }
  }

  // Writers that wait for ever.

  /** No step of writer or reader changes the state. */
  ghost predicate Stuck(st: State)
    requires |st.data| == SIZE
  {
    Blocked(st) && forall step :: Apply(st, step) == st
  }

  lemma NothingToRead(st: State)
    requires |st.data| == SIZE && Blocked(st) && st.reader.Out? && st.rd == st.wr
    ensures Stuck(st)
  {
  }

  lemma AskForRoom(s: seq<Step>, n: nat) returns (t: seq<Step>)
    requires Legal(s) && After(s).writer.Ready? && After(s).reader.Out? && After(s).rd == After(s).wr
    requires 1 <= n <= SIZE && MustWait(After(s).tmp, n, After(s).rd)
    ensures Legal(t) && Stuck(After(t)) && |After(t).writer.batch| == n && After(t).rd == After(t).wr
    ensures After(t).written == After(s).written && After(t).tmp == After(s).tmp && After(t).rd == After(s).rd
  {
    AfterSnoc(s, Write(Zeros(n), false));
    t := s + [Write(Zeros(n), false)];
    NothingToRead(After(t));
  }

  /** A call of n > 9 words waits for ever behind 17 - n unpublished words. */
  lemma StuckWriter(n: nat) returns (steps: seq<Step>)
    requires 10 <= n <= SIZE
    ensures Legal(steps) && |After(steps).written| == SIZE + 1 - n
    ensures var st := After(steps); Stuck(st) && |st.writer.batch| == n && st.rd == st.wr
  {
    var k := SIZE + 1 - n;
    assert Quiet(0) == After([]);
    steps := WriteZeros([], 0, k, false);
    steps := AskForRoom(steps, n);
  }

  /** At the wrap a call of any size waits for ever although the ring is empty: the
      reader's side of the test has wrapped and the writer's has not. */
  lemma StuckAtTheWrap(n: nat) returns (steps: seq<Step>)
    requires 1 <= n <= SIZE
    ensures Legal(steps) && |After(steps).written| == WRAP - SIZE
    ensures var st := After(steps); Stuck(st) && |st.writer.batch| == n && st.rd == st.wr == st.tmp
  {
    steps := Rounds(WRAP - SIZE);
    AtLeastIff(WRAP - SIZE + n - 1, WRAP);
    steps := AskForRoom(steps, n);
  }

  ghost predicate WaitsForReader(n: nat, limit: nat, steps: seq<Step>) {
    Legal(steps) && |After(steps).written| <= limit && Blocked(After(steps)) && |After(steps).writer.batch| == n
    ==> After(steps).rd < After(steps).wr
  }

  /** In a ring that has carried at most `limit` words, a writer blocked on n words always
      has published words the reader has not taken, if and only if n words and as many as
      can be left unpublished fit the ring, and the counters have not come within SIZE of
      2^64.  When it fails there is a state that no step can leave. */
  lemma WaitsForReaderIff(n: nat, limit: nat)
    requires 1 <= n <= SIZE
    ensures (forall steps :: WaitsForReader(n, limit, steps))
            <==> n + (if limit < 7 then limit else 7) <= SIZE && limit + SIZE < WRAP
  {
    if limit + SIZE >= WRAP {
      var steps := StuckAtTheWrap(n);
      assert !WaitsForReader(n, limit, steps);
    } else if n + (if limit < 7 then limit else 7) > SIZE {
      var steps := StuckWriter(n);
      assert !WaitsForReader(n, limit, steps);
    } else {
      forall steps ensures WaitsForReader(n, limit, steps) {
        if Legal(steps) && |After(steps).written| <= limit && Blocked(After(steps))
           && |After(steps).writer.batch| == n {
          BlockedIsLarge(steps);
        }
      }
    }
  }
}
