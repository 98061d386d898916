/** The output ring of mpbuffers.c word by word, with its 64-bit counters.  The server
    never checks for room: that no answer is overwritten follows from the client's
    credits, here the hypothesis that a push starts only when it fits. */
module OutputRing {
  import opened Basics

  datatype WriterPc =
    | Ready
    | Copy(batch: seq<nat>, i: nat)   // the copy loop of outb_write
    | Bump(batch: seq<nat>)           // wr_index += write_count

  datatype ReaderPc =
    | Out
    | Look                            // outb_read: the cached index is used up, read wr_index
    | Fetch                           // outb_read: read the word at local_rd_index

  /** `pushed` and `got` are history; the three counters wrap. */
  datatype State = State(
    data: seq<nat>, wrIndex: nat, localRd: nat, localWr: nat, writer: WriterPc, reader: ReaderPc,
    pushed: seq<nat>, got: seq<nat>)

  datatype Step = Push(batch: seq<nat>) | WriterGo | ReaderGo

  predicate Shape(st: State) {
    |st.data| == OUTB_SIZE && st.wrIndex < WRAP && st.localRd < WRAP && st.localWr < WRAP
  }

  /** The counters start at any value below 2^64, so every run may wrap them. */
  function Start(base: nat): State
    requires base < WRAP
  {
    State(seq(OUTB_SIZE, _ => 0), base, base, base, Ready, Out, [], [])
  }

  function WriterStep(st: State): State
    requires Shape(st)
  {
    match st.writer
    case Ready => st
    case Copy(batch, i) =>
      if i < |batch| then
        st.(data := st.data[(st.wrIndex + i) % WRAP % OUTB_SIZE := batch[i]], writer := Copy(batch, i + 1))
      else st.(writer := Bump(batch))
    case Bump(batch) =>
      st.(wrIndex := (st.wrIndex + |batch|) % WRAP, pushed := st.pushed + batch, writer := Ready)
  }

  function ReaderStep(st: State): State
    requires Shape(st)
  {
    match st.reader
    case Out => st.(reader := if st.localRd == st.localWr then Look else Fetch)
    case Look => st.(localWr := st.wrIndex, reader := if st.localRd == st.wrIndex then Out else Fetch)
    case Fetch =>
      st.(got := st.got + [st.data[st.localRd % OUTB_SIZE]], localRd := (st.localRd + 1) % WRAP, reader := Out)
  }

  /** Unread words, counted on the histories. */
  ghost function Unread(st: State): nat {
    if |st.got| <= |st.pushed| then |st.pushed| - |st.got| else 0
  }

  ghost function Apply(st: State, step: Step): State
    requires Shape(st)
  {
    match step
    case Push(batch) =>
      if st.writer == Ready && Unread(st) + |batch| <= OUTB_SIZE then st.(writer := Copy(batch, 0)) else st
    case WriterGo => WriterStep(st)
    case ReaderGo => ReaderStep(st)
  }

  ghost function After(base: nat, steps: seq<Step>): (st: State)
    requires base < WRAP
    ensures Shape(st)
  {
    if steps == [] then Start(base) else Apply(After(base, steps[..|steps| - 1]), steps[|steps| - 1])
  }

  // Counter k of a run that starts at `base` is (base + k) modulo 2^64.

  lemma SlotOfCounter(k: nat)
    ensures k % WRAP % OUTB_SIZE == k % OUTB_SIZE
  {
  }

  lemma WrapAdd(k: nat, i: nat)
    ensures (k % WRAP + i) % WRAP == (k + i) % WRAP
  {
  }

  lemma WrapEqual(k: nat, l: nat)
    requires k <= l <= k + OUTB_SIZE
    ensures k % WRAP == l % WRAP <==> k == l
  {
  }

  /** The ring holds the words from counter lo on, up to hi. */
  ghost predicate Stored(data: seq<nat>, base: nat, words: seq<nat>, lo: nat)
    requires |data| == OUTB_SIZE
  {
    forall k :: lo <= k < |words| ==> data[(base + k) % OUTB_SIZE] == words[k]
  }

  ghost predicate Inv(st: State, base: nat, cached: nat) {
    && Shape(st)
    && |st.got| <= cached <= |st.pushed| <= |st.got| + OUTB_SIZE
    && st.got == st.pushed[..|st.got|]
    && st.wrIndex == (base + |st.pushed|) % WRAP
    && st.localRd == (base + |st.got|) % WRAP
    && st.localWr == (base + cached) % WRAP
    && Stored(st.data, base, st.pushed, |st.got|)
    && (st.reader == Fetch ==> |st.got| < cached)
    && (st.writer.Copy? ==> st.writer.i <= |st.writer.batch| && |st.pushed| + |st.writer.batch| <= |st.got| + OUTB_SIZE
                            && Stored(st.data, base, st.pushed + st.writer.batch[..st.writer.i], |st.got|))
    && (st.writer.Bump? ==> |st.pushed| + |st.writer.batch| <= |st.got| + OUTB_SIZE
                            && Stored(st.data, base, st.pushed + st.writer.batch, |st.got|))
  }

  /** Storing one more word after `words` keeps those that are stored. */
  lemma StoreNext(data: seq<nat>, base: nat, words: seq<nat>, lo: nat, x: nat)
    requires |data| == OUTB_SIZE && Stored(data, base, words, lo) && lo <= |words| < lo + OUTB_SIZE
    ensures Stored(data[(base + |words|) % OUTB_SIZE := x], base, words + [x], lo)
  {
    var r, all := data[(base + |words|) % OUTB_SIZE := x], words + [x];
    forall k | lo <= k < |all| ensures r[(base + k) % OUTB_SIZE] == all[k] {
      if k < |words| { SlotsDiffer(base + k, base + |words|, OUTB_SIZE); }
    }
  }

  lemma StoredPrefix(data: seq<nat>, base: nat, words: seq<nat>, more: seq<nat>, lo: nat)
    requires |data| == OUTB_SIZE && Stored(data, base, words + more, lo)
    ensures Stored(data, base, words, lo)
  {
    forall k | lo <= k < |words| ensures data[(base + k) % OUTB_SIZE] == words[k] {
      assert (words + more)[k] == words[k];
    }
  }

  lemma CopySlot(st: State, base: nat, i: nat, k: nat)
    requires st.wrIndex == (base + |st.pushed|) % WRAP && k == |st.pushed| + i
    ensures (st.wrIndex + i) % WRAP % OUTB_SIZE == (base + k) % OUTB_SIZE
  {
    WrapAdd(base + |st.pushed|, i);
    SlotOfCounter(base + k);
  }

  lemma CopyOk(st: State, base: nat, cached: nat)
    requires Inv(st, base, cached) && st.writer.Copy?
    ensures Inv(WriterStep(st), base, cached)
  {
    var batch, i := st.writer.batch, st.writer.i;
    if i < |batch| {
      CopyWord(st, base);
    } else {
      assert batch[..i] == batch;
    }
  }

  lemma CopyWord(st: State, base: nat)
    requires Shape(st) && st.writer.Copy? && st.writer.i < |st.writer.batch|
    requires st.wrIndex == (base + |st.pushed|) % WRAP && |st.got| <= |st.pushed|
    requires |st.pushed| + |st.writer.batch| <= |st.got| + OUTB_SIZE
    requires Stored(st.data, base, st.pushed + st.writer.batch[..st.writer.i], |st.got|)
    ensures Stored(WriterStep(st).data, base, st.pushed, |st.got|)
    ensures Stored(WriterStep(st).data, base, st.pushed + st.writer.batch[..st.writer.i + 1], |st.got|)
  {
    var batch, i := st.writer.batch, st.writer.i;
    var done := st.pushed + batch[..i];
    CopySlot(st, base, i, |done|);
    StoreNext(st.data, base, done, |st.got|, batch[i]);
    assert done + [batch[i]] == st.pushed + batch[..i + 1];
    StoredPrefix(WriterStep(st).data, base, st.pushed, batch[..i + 1], |st.got|);
  }

  lemma BumpOk(st: State, base: nat, cached: nat)
    requires Inv(st, base, cached) && st.writer.Bump?
    ensures Inv(WriterStep(st), base, cached)
  {
    WrapAdd(base + |st.pushed|, |st.writer.batch|);
    var r := WriterStep(st);
    assert r.pushed[..|st.got|] == st.pushed[..|st.got|];
  }

  lemma FetchOk(st: State, base: nat, cached: nat)
    requires Inv(st, base, cached) && st.reader == Fetch
    ensures Inv(ReaderStep(st), base, cached)
    ensures ReaderStep(st).got == st.got + [st.pushed[|st.got|]]
  {
    SlotOfCounter(base + |st.got|);
    WrapAdd(base + |st.got|, 1);
    var r := ReaderStep(st);
    assert r.got == st.pushed[..|st.got| + 1];
  }

  lemma ReadOk(st: State, base: nat, cached: nat) returns (cached': nat)
    requires Inv(st, base, cached)
    ensures Inv(ReaderStep(st), base, cached')
    ensures st.reader == Look ==> (ReaderStep(st).reader == Out <==> Unread(st) == 0)
  {
    cached' := cached;
    match st.reader
    case Out => WrapEqual(base + |st.got|, base + cached);
    case Look =>
      cached' := |st.pushed|;
      WrapEqual(base + |st.got|, base + |st.pushed|);
    case Fetch => FetchOk(st, base, cached);
  }

  lemma ApplyOk(st: State, base: nat, cached: nat, step: Step) returns (cached': nat)
    requires Inv(st, base, cached)
    ensures Inv(Apply(st, step), base, cached')
  {
    cached' := cached;
    match step
    case Push(batch) => assert st.pushed + batch[..0] == st.pushed;
    case WriterGo =>
      if st.writer.Copy? { CopyOk(st, base, cached); } else if st.writer.Bump? { BumpOk(st, base, cached); }
    case ReaderGo => cached' := ReadOk(st, base, cached);
  }

  lemma {:induction false} RunOk(base: nat, steps: seq<Step>) returns (cached: nat)
    requires base < WRAP
    ensures Inv(After(base, steps), base, cached)
  {
    if steps == [] {
      cached := 0;
    } else {
      var c := RunOk(base, steps[..|steps| - 1]);
      cached := ApplyOk(After(base, steps[..|steps| - 1]), base, c, steps[|steps| - 1]);
    }
  }

  /** In every interleaving the words read are the words pushed, in order, wherever the
      64-bit counters start and however often they wrap; never more than OUTB_SIZE are
      unread; and an empty read means that nothing was unread when wr_index was read. */
  lemma AnswersInOrder(base: nat, steps: seq<Step>)
    requires base < WRAP
    ensures var st := After(base, steps);
            && st.got <= st.pushed && |st.pushed| - |st.got| <= OUTB_SIZE
            && (st.reader == Look && ReaderStep(st).reader == Out ==> st.got == st.pushed)
            && (st.reader == Fetch ==> st.got < st.pushed && ReaderStep(st).got == st.got + [st.pushed[|st.got|]])
  {
    var cached := RunOk(base, steps);
    var st := After(base, steps);
    if st.reader == Look { var c := ReadOk(st, base, cached); }
    if st.reader == Fetch { FetchOk(st, base, cached); }
  }

  lemma FullCircle(k: nat)
    ensures (k + OUTB_SIZE) % WRAP % OUTB_SIZE == k % OUTB_SIZE
  {
    SlotOfCounter(k + OUTB_SIZE);
  }

  /** The hypothesis is needed: with sixty-four words unread, pushing one more without
      credit overwrites the oldest unread answer. */
  lemma PushWithoutCreditOverwrites(st: State, base: nat, w: nat)
    requires Inv(st, base, |st.pushed|) && Unread(st) == OUTB_SIZE && st.writer == Ready
    ensures WriterStep(st.(writer := Copy([w], 0))).data[(base + |st.got|) % OUTB_SIZE] == w
    ensures st.data[(base + |st.got|) % OUTB_SIZE] == st.pushed[|st.got|]
  {
    var k := base + |st.got|;
    FullCircle(k);
    assert st.wrIndex == (k + OUTB_SIZE) % WRAP;
    WrapAdd(k + OUTB_SIZE, 0);
  }
}
