/** The input ring of mpbuffers.c at the granularity of single words: one writer, one
    reader, and a step for each access to a shared word. */
module InputRing {
  import opened Basics
  import opened Routes

  type Batch = seq<nat>

  datatype WriterPc =
    | Ready
    | Wait(after: Batch)             // spinning on word 0; `after` are the words inpb_write appends afterwards
    | Copy(i: nat, after: Batch)     // the loop over the words from 1 on
    | End(after: Batch)              // the terminating zero
    | Publish(after: Batch)          // word 0 last

  datatype ReaderPc =
    | Out
    | Test(buf: Batch)               // the loop test reads the next word
    | Fetch(buf: Batch)              // the loop body reads it again
    | Clear(buf: Batch)              // word 0 back to zero

  /** `flushed`, `read` and `written` are history. */
  datatype State = State(
    data: seq<Batch>, dataWr: nat, dataRd: nat, local: Batch, writer: WriterPc, reader: ReaderPc,
    flushed: seq<Batch>, read: seq<Batch>, written: Batch)

  datatype Step = Write(words: Batch) | Flush | WriterGo | ReaderGo

  function Start(): State {
    State([Zeros(), Zeros(), Zeros(), Zeros()], 0, 0, [], Ready, Out, [], [], [])
  }

  function Zeros(): Batch {
    [0, 0, 0, 0, 0, 0, 0, 0]
  }

  predicate Shape(st: State) {
    |st.data| == INPB_COUNT && (forall k :: 0 <= k < INPB_COUNT ==> |st.data[k]| == INPB_SIZE)
    && st.dataWr < INPB_COUNT && st.dataRd < INPB_COUNT
  }

  function SetWord(st: State, slot: nat, i: nat, w: nat): State
    requires Shape(st) && slot < INPB_COUNT && i < INPB_SIZE
  {
    var words: Batch := st.data[slot][i := w];
    st.(data := st.data[slot := words])
  }

  function WriterStep(st: State): State
    requires Shape(st)
  {
    match st.writer
    case Ready => st
    case Wait(after) => if st.data[st.dataWr][0] != 0 then st else st.(writer := Copy(1, after))
    case Copy(i, after) =>
      if i < |st.local| && i < INPB_SIZE then SetWord(st, st.dataWr, i, st.local[i]).(writer := Copy(i + 1, after))
      else st.(writer := End(after))
    case End(after) =>
      (if |st.local| < INPB_SIZE then SetWord(st, st.dataWr, |st.local|, 0) else st).(writer := Publish(after))
    case Publish(after) =>
      if st.local == [] then st else
        SetWord(st, st.dataWr, 0, st.local[0])
          .(dataWr := (st.dataWr + 1) % INPB_COUNT, flushed := st.flushed + [st.local],
            local := after, written := st.written + after, writer := Ready)
  }

  function ReaderStep(st: State): State
    requires Shape(st)
  {
    match st.reader
    case Out => st.(reader := Test([]))
    case Test(buf) =>
      if |buf| < INPB_SIZE && st.data[st.dataRd][|buf|] != 0 then st.(reader := Fetch(buf))
      else st.(reader := if buf != [] then Clear(buf) else Out)
    case Fetch(buf) =>
      if |buf| < INPB_SIZE then st.(reader := Test(buf + [st.data[st.dataRd][|buf|]])) else st
    case Clear(buf) =>
      SetWord(st, st.dataRd, 0, 0).(dataRd := (st.dataRd + 1) % INPB_COUNT, read := st.read + [buf], reader := Out)
  }

  /** Any interleaving: a call starts only when the previous one has returned, and a
      step that cannot be made leaves the state as it is. */
  function Apply(st: State, step: Step): State
    requires Shape(st)
  {
    match step
    case Write(words) =>
      if st.writer != Ready then st
      else if |st.local| + |words| <= INPB_SIZE then st.(local := st.local + words, written := st.written + words)
      else if st.local == [] then st
      else st.(writer := Wait(words))
    case Flush => if st.writer != Ready || st.local == [] then st else st.(writer := Wait([]))
    case WriterGo => WriterStep(st)
    case ReaderGo => ReaderStep(st)
  }

  function After(steps: seq<Step>): (st: State)
    ensures Shape(st)
  {
    if steps == [] then Start() else Apply(After(steps[..|steps| - 1]), steps[|steps| - 1])
  }

  /** The hypotheses on what is written: calls fit a slot and no word is zero. */
  ghost predicate Nonzero(b: Batch) {
    forall i :: 0 <= i < |b| ==> b[i] != 0
  }

  ghost predicate Legal(steps: seq<Step>) {
    forall i :: 0 <= i < |steps| && steps[i].Write? ==> |steps[i].words| <= INPB_SIZE && Nonzero(steps[i].words)
  }

  // The invariant.

  ghost predicate Holds(slot: Batch, b: Batch)
    requires |slot| == INPB_SIZE
  {
    && 0 < |b| <= INPB_SIZE && Nonzero(b) && (forall j :: 0 <= j < |b| ==> slot[j] == b[j])
    && (|b| < INPB_SIZE ==> slot[|b|] == 0)
  }

  ghost predicate IndexOk(st: State) {
    && Shape(st)
    && |st.read| <= |st.flushed| <= |st.read| + INPB_COUNT
    && st.dataWr == |st.flushed| % INPB_COUNT && st.dataRd == |st.read| % INPB_COUNT
    && st.read == st.flushed[..|st.read|]
  }

  ghost predicate SlotsOk(st: State)
    requires IndexOk(st)
  {
    && (forall i :: |st.read| <= i < |st.flushed| ==> Holds(st.data[i % INPB_COUNT], st.flushed[i]))
    && (forall i :: |st.flushed| <= i < |st.read| + INPB_COUNT ==> st.data[i % INPB_COUNT][0] == 0)
  }

  ghost predicate Free(st: State) {
    |st.flushed| < |st.read| + INPB_COUNT
  }

  /** The slot has words 1 to k - 1 of b. */
  ghost predicate Copied(slot: Batch, b: Batch, k: nat) {
    k <= |b| <= INPB_SIZE == |slot| && forall j :: 1 <= j < k ==> slot[j] == b[j]
  }

  ghost predicate Flushing(st: State, after: Batch) {
    st.local != [] && |after| <= INPB_SIZE && Nonzero(after)
  }

  ghost predicate WriterOk(st: State)
    requires Shape(st)
  {
    var slot := st.data[st.dataWr];
    && |st.local| <= INPB_SIZE && Nonzero(st.local)
    && Flat(st.flushed) + st.local == st.written
    && match st.writer
       case Ready => true
       case Wait(after) => Flushing(st, after)
       case Copy(i, after) => Flushing(st, after) && Free(st) && 1 <= i && Copied(slot, st.local, i)
       case End(after) => Flushing(st, after) && Free(st) && Copied(slot, st.local, |st.local|)
       case Publish(after) =>
         Flushing(st, after) && Free(st) && Copied(slot, st.local, |st.local|)
         && (|st.local| < INPB_SIZE ==> slot[|st.local|] == 0)
  }

  ghost predicate Reading(st: State, buf: Batch) {
    |st.read| < |st.flushed| && buf <= st.flushed[|st.read|]
  }

  ghost predicate ReaderOk(st: State)
    requires Shape(st)
  {
    match st.reader
    case Out => true
    case Test(buf) => buf == [] || Reading(st, buf)
    case Fetch(buf) => Reading(st, buf) && |buf| < |st.flushed[|st.read|]|
    case Clear(buf) => |st.read| < |st.flushed| && buf == st.flushed[|st.read|]
  }

  ghost predicate Inv(st: State) {
    IndexOk(st) && SlotsOk(st) && WriterOk(st) && ReaderOk(st)
  }

  lemma SameSlot(i: nat)
    ensures (i + INPB_COUNT) % INPB_COUNT == i % INPB_COUNT
  {
  }

  /** Words from 1 on of the next free slot may change at will. */
  lemma FreeSlotWord(st: State, i: nat, w: nat)
    requires IndexOk(st) && SlotsOk(st) && Free(st) && 1 <= i < INPB_SIZE
    ensures var r := SetWord(st, st.dataWr, i, w); IndexOk(r) && SlotsOk(r)
  {
    var r := SetWord(st, st.dataWr, i, w);
    forall k | |r.read| <= k < |r.flushed| ensures Holds(r.data[k % INPB_COUNT], r.flushed[k]) {
      SlotsDiffer(k, |st.flushed|, INPB_COUNT);
      assert Holds(st.data[k % INPB_COUNT], st.flushed[k]);
    }
  }

  lemma WaitOk(st: State)
    requires Inv(st) && st.writer.Wait?
    ensures Inv(WriterStep(st))
    ensures st.data[st.dataWr][0] != 0 ==> |st.flushed| == |st.read| + INPB_COUNT
  {
    if |st.flushed| == |st.read| + INPB_COUNT {
      assert Holds(st.data[|st.read| % INPB_COUNT], st.flushed[|st.read|]);
    } else {
      assert st.data[|st.flushed| % INPB_COUNT][0] == 0;
    }
  }

  lemma CopyOk(st: State)
    requires Inv(st) && (st.writer.Copy? || st.writer.End?)
    ensures Inv(WriterStep(st))
  {
    var r := WriterStep(st);
    var slot := st.data[st.dataWr];
    if st.writer.Copy? && st.writer.i < |st.local| {
      var i := st.writer.i;
      FreeSlotWord(st, i, st.local[i]);
    } else if st.writer.End? && |st.local| < INPB_SIZE {
      FreeSlotWord(st, |st.local|, 0);
    }
  }

  /** Filling the free slot with a batch and touching no other slot. */
  lemma FilledSlot(st: State, r: State, b: Batch)
    requires IndexOk(st) && SlotsOk(st) && Free(st) && IndexOk(r)
    requires r.flushed == st.flushed + [b] && r.read == st.read
    requires forall m :: 0 <= m < INPB_COUNT && m != |st.flushed| % INPB_COUNT ==> r.data[m] == st.data[m]
    requires Holds(r.data[|st.flushed| % INPB_COUNT], b)
    ensures SlotsOk(r)
  {
    var f := |st.flushed|;
    forall k | |r.read| <= k < |r.flushed| ensures Holds(r.data[k % INPB_COUNT], r.flushed[k]) {
      if k < f { SlotsDiffer(k, f, INPB_COUNT); assert Holds(st.data[k % INPB_COUNT], st.flushed[k]); }
    }
    forall k | |r.flushed| <= k < |r.read| + INPB_COUNT ensures r.data[k % INPB_COUNT][0] == 0 {
      SlotsDiffer(f, k, INPB_COUNT);
    }
  }

  lemma PublishIndex(st: State)
    requires Inv(st) && st.writer.Publish?
    ensures var r := WriterStep(st); IndexOk(r)
  {
    SnocPrefix(st.flushed, st.local, |st.read|);
  }

  /** Writing word 0 of the free slot publishes it. */
  lemma PublishSlots(st: State)
    requires Inv(st) && st.writer.Publish?
    ensures var r := WriterStep(st); IndexOk(r) && SlotsOk(r)
  {
    PublishIndex(st);
    FilledSlot(st, WriterStep(st), st.local);
  }

  lemma PublishOk(st: State)
    requires Inv(st) && st.writer.Publish?
    ensures Inv(WriterStep(st))
  {
    PublishSlots(st);
    FlatSnoc(st.flushed, st.local);
  }

  lemma ReadOk(st: State)
    requires Inv(st) && !st.reader.Clear?
    ensures Inv(ReaderStep(st))
  {
    if st.reader.Test? || st.reader.Fetch? {
      var buf, slot := st.reader.buf, st.data[st.dataRd];
      if |st.read| == |st.flushed| {
        assert st.data[|st.flushed| % INPB_COUNT][0] == 0;
      } else {
        var b := st.flushed[|st.read|];
        assert Holds(slot, b);
      }
    }
  }

  lemma ClearIndex(st: State)
    requires IndexOk(st) && ReaderOk(st) && st.reader.Clear?
    ensures IndexOk(ReaderStep(st))
  {
    PrefixSnoc(st.flushed, |st.read|);
  }

  /** Resetting word 0 of the oldest slot frees it and touches no other slot. */
  lemma FreedSlot(st: State, r: State)
    requires IndexOk(st) && SlotsOk(st) && IndexOk(r)
    requires r.flushed == st.flushed && |r.read| == |st.read| + 1
    requires forall m :: 0 <= m < INPB_COUNT && m != |st.read| % INPB_COUNT ==> r.data[m] == st.data[m]
    requires r.data[|st.read| % INPB_COUNT][0] == 0
    ensures SlotsOk(r)
  {
    var p := |st.read|;
    forall k | p + 1 <= k < |st.flushed| ensures Holds(r.data[k % INPB_COUNT], r.flushed[k]) {
      SlotsDiffer(p, k, INPB_COUNT);
      assert Holds(st.data[k % INPB_COUNT], st.flushed[k]);
    }
    forall k | |st.flushed| <= k < p + 1 + INPB_COUNT ensures r.data[k % INPB_COUNT][0] == 0 {
      if k < p + INPB_COUNT {
        SlotsDiffer(p, k, INPB_COUNT);
        assert st.data[k % INPB_COUNT][0] == 0;
      } else {
        SameSlot(p);
      }
    }
  }

  lemma ClearOk(st: State)
    requires Inv(st) && st.reader.Clear?
    ensures Inv(ReaderStep(st))
  {
    ClearIndex(st);
    FreedSlot(st, ReaderStep(st));
    if Free(st) { SlotsDiffer(|st.read|, |st.flushed|, INPB_COUNT); }
  }

  lemma ApplyOk(st: State, step: Step)
    requires Inv(st) && Legal([step])
    ensures Inv(Apply(st, step))
  {
    assert [step][0] == step;
    match step
    case Write(words) =>
      assert Flat(st.flushed) + (st.local + words) == Flat(st.flushed) + st.local + words;
    case Flush =>
    case WriterGo =>
      match st.writer {
        case Ready =>
        case Wait(_) => WaitOk(st);
        case Copy(_, _) => CopyOk(st);
        case End(_) => CopyOk(st);
        case Publish(_) => PublishOk(st);
      }
    case ReaderGo => if st.reader.Clear? { ClearOk(st); } else { ReadOk(st); }
  }

  lemma {:induction false} RunOk(steps: seq<Step>)
    requires Legal(steps)
    ensures Inv(After(steps))
  {
    if steps != [] {
      RunOk(steps[..|steps| - 1]);
      ApplyOk(After(steps[..|steps| - 1]), steps[|steps| - 1]);
    }
  }

  /** The published batches not yet taken: what the rest of the system sees of the ring. */
  ghost function Queue(st: State): seq<Batch> {
    if |st.read| <= |st.flushed| then st.flushed[|st.read|..] else []
  }

  /** Every interleaving of writer and reader, word by word, reads exactly the batches
      flushed, whole and in order; every word written is in a batch flushed or still
      local; the slots in use are those from data_rd up to data_wr; and a writer that
      spins faces four of them. */
  lemma RingIsFifo(steps: seq<Step>)
    requires Legal(steps)
    ensures var st := After(steps);
            && st.read <= st.flushed && |Queue(st)| <= INPB_COUNT
            && Flat(st.flushed) + st.local == st.written
            && st.dataRd == |st.read| % INPB_COUNT && st.dataWr == |st.flushed| % INPB_COUNT
            && (forall i :: |st.read| <= i < |st.read| + INPB_COUNT ==>
                  (st.data[i % INPB_COUNT][0] != 0 <==> i < |st.flushed|))
            && (st.writer.Wait? && WriterStep(st) == st ==> |Queue(st)| == INPB_COUNT)
  {
    RunOk(steps);
    var st := After(steps);
    if st.writer.Wait? { WaitOk(st); }
    forall i | |st.read| <= i < |st.read| + INPB_COUNT
      ensures st.data[i % INPB_COUNT][0] != 0 <==> i < |st.flushed|
    {
      if i < |st.flushed| {
        assert Holds(st.data[i % INPB_COUNT], st.flushed[i]);
      }
    }
  }

  lemma StepOfAQueue(st: State, step: Step)
    requires Inv(st)
    ensures var r := Apply(st, step);
            || (Queue(r) == Queue(st) && r.read == st.read)
            || (Queue(r) == Queue(st) + [st.local] && r.read == st.read && |Queue(st)| < INPB_COUNT && st.local != [])
            || (Queue(st) != [] && Queue(r) == Queue(st)[1..] && r.read == st.read + [Queue(st)[0]])
  {
    var r := Apply(st, step);
    if step.WriterGo? && st.writer.Publish? {
      assert r.flushed == st.flushed + [st.local];
      assert Queue(r) == Queue(st) + [st.local];
    } else if step.ReaderGo? && st.reader.Clear? {
      assert Queue(r) == Queue(st)[1..];
    }
  }

  /** Refinement: each step publishes the local batch at the end of a queue that has
      room, takes the first batch and hands it over whole, or leaves the queue alone. */
  lemma StepsOfAQueue(steps: seq<Step>, step: Step)
    requires Legal(steps)
    ensures var st, r := After(steps), After(steps + [step]);
            || (Queue(r) == Queue(st) && r.read == st.read)
            || (Queue(r) == Queue(st) + [st.local] && r.read == st.read && |Queue(st)| < INPB_COUNT && st.local != [])
            || (Queue(st) != [] && Queue(r) == Queue(st)[1..] && r.read == st.read + [Queue(st)[0]])
  {
    RunOk(steps);
    StepOfAQueue(After(steps), step);
    assert (steps + [step])[..|steps + [step]| - 1] == steps;
  }
}
