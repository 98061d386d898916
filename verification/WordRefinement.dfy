/** Every run of WordSystem is a run of System: each access to a shared word is none, one
    or two steps of System. */
module WordRefinement {
  import opened Basics
  import opened Elements
  import opened Routes
  import opened System
  import opened Flow
  import opened WordSystem
  import Control
  import W = Words
  import BR = BoxRefinement
  import InputRing
  import OutputRing

  // The simulation relation.

  ghost predicate SameRings(a: Box, b: Box) {
    a.local == b.local && a.ring == b.ring && a.hand == b.hand && a.replies == b.replies && a.out == b.out
  }

  ghost predicate SimBox(w: BR.Wire, base: nat, b: Box) {
    exists cached :: BR.Simulates(w, base, cached, b)
  }

  /** The client is in an inpb_flush of box t. */
  predicate FlushesAt(pc: Pc, pending: seq<nat>, t: nat) {
    match pc
    case PutFlush(s, _, _) => s == t
    case ReadFlush(_) => pending != [] && pending[0] == t
    case ReadyFlush(s) => s == t
    case FlushAll(s) => s == t
    case _ => false
  }

  ghost predicate PhaseOk(pc: Pc, pending: seq<nat>, w: BR.Wire, t: nat) {
    && w.want == (if pc.PutFlush? && pc.s == t then Some(pc.op) else None)
    && (!FlushesAt(pc, pending, t) ==> w.input.writer.Ready?)
    && (pc.PutFlush? && pc.s == t ==> !w.input.writer.Ready?)
  }

  /** A server answers an insert with an inserter's reference, a lookup with a reader's. */
  predicate KindOk(e: Event) {
    e.answer.Some? && e.answer.value.Ref? ==> (e.answer.value.hold == Inserter <==> e.op.Insert?)
  }

  ghost predicate KindsOk(es: seq<Event>) {
    forall i :: 0 <= i < |es| ==> KindOk(es[i])
  }

  ghost predicate BoxRel(base: nat, pc: Pc, pending: seq<nat>, b: Box, w: BR.Wire, t: nat) {
    SimBox(w, base, b) && PhaseOk(pc, pending, w, t) && KindsOk(b.served)
  }

  predicate TaskInRange(task: Task) {
    task.Submit? ==> W.Encodable(task.op)
  }

  predicate PcInRange(pc: Pc) {
    match pc
    case Admit(op, _) => W.Encodable(op)
    case Put(_, op, _) => W.Encodable(op)
    case PutFlush(_, op, _) => W.Encodable(op)
    case Read(task) => TaskInRange(task)
    case ReadFlush(task) => TaskInRange(task)
    case ReadBlock(task) => TaskInRange(task)
    case _ => true
  }

  ghost predicate BoxesRel(n: nat, base: nat, cl: Client, ws: seq<BR.Wire>) {
    && n == |cl.boxes| == |ws|
    && forall t: nat :: t < n ==> BoxRel(base, cl.pc, cl.pending, cl.boxes[t], ws[t], t)
  }

  ghost predicate ThreadRel(n: nat, base: nat, cl: Client, th: Client, ws: seq<BR.Wire>) {
    th == Local(cl) && PcInRange(cl.pc) && BoxesRel(n, base, cl, ws)
  }

  /** The wire is in the hands of its server exactly when System has it serve that box. */
  ghost predicate ServesRel(sv: Server, c: nat, w: BR.Wire) {
    sv.serving && sv.cursor == c <==> !w.server.Polling?
  }

  ghost predicate Rel(n: nat, base: nat, f: Fine, st: State) {
    && |st.servers| == n && |f.threads| == |f.wires| == |st.clients| && |f.workers| == n
    && (forall c: nat :: c < |st.clients| ==> ThreadRel(n, base, st.clients[c], f.threads[c], f.wires[c]))
    && (forall s: nat :: s < n ==> f.workers[s] == Worker(st.servers[s].part, st.servers[s].cursor))
    && (forall c: nat, s: nat :: c < |st.clients| && s < n ==> ServesRel(st.servers[s], c, f.wires[c][s]))
  }

  /** No step, one or two steps of a client inside an operation. */
  ghost predicate Reaches(n: nat, maxSize: nat, cl: Client, r: Client)
    requires Control.ClientOk(n, maxSize, cl)
  {
    || r == cl
    || (Enabled(n, maxSize, cl, Go)
        && (r == Go1(n, cl)
            || (Control.ClientOk(n, maxSize, Go1(n, cl)) && Enabled(n, maxSize, Go1(n, cl), Go)
                && r == Go1(n, Go1(n, cl)))))
  }

  // What a wire tells.

  lemma SimSame(w: BR.Wire, base: nat, b: Box, b': Box)
    requires SimBox(w, base, b) && SameRings(b, b')
    ensures SimBox(w, base, b')
  {
    var cached :| BR.Simulates(w, base, cached, b);
    SimSameAt(w, base, cached, b, b');
  }

  lemma SimSameAt(w: BR.Wire, base: nat, cached: nat, b: Box, b': Box)
    requires BR.Simulates(w, base, cached, b) && SameRings(b, b')
    ensures BR.Simulates(w, base, cached, b')
  {
  }

  lemma StepSim(w: BR.Wire, base: nat, b: Box, step: BR.Step)
    requires SimBox(w, base, b) && BR.CanDo(w, step)
    ensures SimBox(BR.Next(w, step), base, BR.BoxAfter(w, step, b)) && BR.Moment(w, step, b)
  {
    var cached :| BR.Simulates(w, base, cached, b);
    var cached', mid, r := BR.StepSimulates(w, base, cached, b, step);
  }

  lemma ShapeOfSim(w: BR.Wire, base: nat, b: Box)
    requires SimBox(w, base, b)
    ensures BR.Shape(w)
  {
    var cached :| BR.Simulates(w, base, cached, b);
  }

  /** outb_read finds nothing only when there is nothing. */
  lemma LookEmpty(w: BR.Wire, base: nat, b: Box)
    requires SimBox(w, base, b) && w.output.localRd == w.output.wrIndex
    ensures b.out == []
  {
    var cached :| BR.Simulates(w, base, cached, b);
    AllRead(w.output, base, cached);
    assert |w.output.pushed[|w.output.got|..]| == |b.out|;
  }

  lemma AllRead(o: OutputRing.State, base: nat, cached: nat)
    requires OutputRing.Inv(o, base, cached) && o.localRd == o.wrIndex
    ensures |o.got| == |o.pushed|
  {
    OutputRing.WrapEqual(base + |o.got|, base + |o.pushed|);
  }

  lemma FetchWord(w: BR.Wire, base: nat, b: Box)
    requires SimBox(w, base, b) && w.output.reader.Fetch?
    ensures b.out != [] && BR.Shape(w) && w.output.data[w.output.localRd % OUTB_SIZE] == W.ReplyWord(b.out[0])
  {
    var cached :| BR.Simulates(w, base, cached, b);
    var cached' := BR.TakeStepOk(w.output, base, cached, w.server, b);
    LastOf(w.output.got, w.output.data[w.output.localRd % OUTB_SIZE], W.ReplyWord(b.out[0]));
  }

  lemma LastOf(s: seq<nat>, x: nat, y: nat)
    requires s + [x] == s + [y]
    ensures x == y
  {
    assert (s + [x])[|s|] == (s + [y])[|s|];
  }

  lemma LocalEmpty(w: BR.Wire, base: nat, b: Box)
    requires SimBox(w, base, b)
    ensures w.input.local == [] <==> b.local == []
  {
    var cached :| BR.Simulates(w, base, cached, b);
    if b.local != [] { BR.EncodedOp(b.local[0]); }
  }

  /** The first word of a slot is zero only when no batch is published. */
  lemma TestEmpty(w: BR.Wire, base: nat, b: Box)
    requires SimBox(w, base, b) && w.input.reader.Test? && InputRing.Shape(w.input)
    requires InputRing.ReaderStep(w.input).reader.Out?
    ensures b.ring == []
  {
    var cached :| BR.Simulates(w, base, cached, b);
    if b.ring != [] { FirstWordSet(w.input); }
  }

  lemma FirstWordSet(i: InputRing.State)
    requires InputRing.Inv(i) && i.reader.Test? && InputRing.Queue(i) != []
    ensures !InputRing.ReaderStep(i).reader.Out?
  {
    assert InputRing.Holds(i.data[|i.read| % INPB_COUNT], i.flushed[|i.read|]);
  }

  lemma WireCredit(n: nat, base: nat, cl: Client, w: BR.Wire, s: nat)
    requires DataOk(n, cl) && s < n && SimBox(w, base, cl.boxes[s])
    ensures w.credit == cl.credit[s]
  {
    var cached :| BR.Simulates(w, base, cached, cl.boxes[s]);
    Control.Conservation(n, cl, s);
  }

  // Local state.

  lemma LocalStep(n: nat, maxSize: nat, cl: Client, a: Act)
    requires ThreadShape(n, cl) && a != Go
    ensures Enabled(n, maxSize, Local(cl), a) == Enabled(n, maxSize, cl, a)
    ensures ClientStep(n, Local(cl), a) == Local(ClientStep(n, cl, a))
  {
  }

  lemma {:induction false} LocalDeliverAll(cl: Client)
    requires cl.rd <= |cl.got|
    ensures DeliverAll(Local(cl)) == Local(DeliverAll(cl))
    decreases |cl.got| - cl.rd
  {
    if cl.rd < |cl.got| && cl.got[cl.rd].0 < |cl.boxes| {
      LocalDeliver(cl);
      LocalDeliverAll(DeliverNext(cl));
    }
  }

  lemma LocalDeliver(cl: Client)
    requires cl.rd < |cl.got| && cl.got[cl.rd].0 < |cl.boxes|
    ensures DeliverNext(Local(cl)) == Local(DeliverNext(cl))
  {
  }

  lemma LocalAppend(cl: Client, s: nat, op: Op)
    requires s < |cl.boxes| == |cl.credit|
    ensures Local(Append(Local(cl), s, op)) == Local(Append(cl, s, op))
  {
  }

  /** The unread word at the front answers the client's oldest unanswered request. */
  lemma HeardRight(n: nat, cl: Client)
    requires DataOk(n, cl) && CanTake(cl) && KindsOk(cl.boxes[cl.pending[0]].served)
    ensures |cl.got| < |Asked(cl.cmds)|
    ensures var a := cl.boxes[cl.pending[0]].out[0]; Heard(Asked(cl.cmds)[|cl.got|].1, W.ReplyWord(a)) == a
  {
    TakeOk(n, cl);
    Control.Matching(n, Take(cl), |cl.got|);
    var a := cl.boxes[cl.pending[0]].out[0];
    var e := Event(Asked(cl.cmds)[|cl.got|].1, Some(a));
    assert e in cl.boxes[cl.pending[0]].served && KindOk(e);
    if a.Ref? { W.NameBack(a.id); }
  }

  lemma CanHearIt(n: nat, cl: Client)
    requires DataOk(n, cl) && cl.pending != []
    ensures CanHear(Local(cl))
  {
    Control.CreditPositive(n, cl);
    assert |Tags(Asked(cl.cmds))| == |cl.got| + |cl.pending|;
  }

  lemma LocalTake(n: nat, cl: Client, word: nat)
    requires DataOk(n, cl) && CanTake(cl) && KindsOk(cl.boxes[cl.pending[0]].served)
    requires word == W.ReplyWord(cl.boxes[cl.pending[0]].out[0])
    ensures CanHear(Local(cl)) && Hear(Local(cl), word) == Local(Take(cl))
  {
    CanHearIt(n, cl);
    HeardRight(n, cl);
  }

  lemma LocalAfterTake(cl: Client, task: Task)
    ensures AfterTake(Local(cl), task) == Local(AfterTake(cl, task))
  {
    if task.Deliver? && cl.rd < |cl.got| && cl.got[cl.rd].0 < |cl.boxes| { LocalDeliver(cl); }
  }

  // One access of a client.

  /** Server-side history and kinds are left alone; rings elsewhere too. */
  ghost predicate OthersSame(cl: Client, r: Client, s: nat) {
    && |r.boxes| == |cl.boxes|
    && forall t: nat :: t < |cl.boxes| ==>
         r.boxes[t].served == cl.boxes[t].served && (t != s ==> SameRings(cl.boxes[t], r.boxes[t]))
  }

  ghost predicate PhasesElsewhere(n: nat, r: Client, ws: seq<BR.Wire>, s: nat)
    requires |ws| == n
  {
    forall t: nat :: t < n && t != s ==> PhaseOk(r.pc, r.pending, ws[t], t)
  }

  lemma Touched(n: nat, base: nat, cl: Client, ws: seq<BR.Wire>, s: nat, step: BR.Step, r: Client)
    requires BoxesRel(n, base, cl, ws) && s < n && BR.CanDo(ws[s], step)
    requires OthersSame(cl, r, s) && SameRings(BR.BoxAfter(ws[s], step, cl.boxes[s]), r.boxes[s])
    requires PhaseOk(r.pc, r.pending, BR.Next(ws[s], step), s) && PhasesElsewhere(n, r, ws, s)
    ensures BoxesRel(n, base, r, ws[s := BR.Next(ws[s], step)])
  {
    var ws' := ws[s := BR.Next(ws[s], step)];
    forall t: nat | t < n ensures BoxRel(base, r.pc, r.pending, r.boxes[t], ws'[t], t) {
      assert BoxRel(base, cl.pc, cl.pending, cl.boxes[t], ws[t], t);
      if t == s {
        StepSim(ws[s], base, cl.boxes[s], step);
        SimSame(BR.Next(ws[s], step), base, BR.BoxAfter(ws[s], step, cl.boxes[s]), r.boxes[s]);
      } else {
        SimSame(ws[t], base, cl.boxes[t], r.boxes[t]);
      }
    }
  }

  /** No access. */
  lemma Untouched(n: nat, base: nat, cl: Client, ws: seq<BR.Wire>, r: Client)
    requires BoxesRel(n, base, cl, ws) && OthersSame(cl, r, n) && PhasesElsewhere(n, r, ws, n)
    ensures BoxesRel(n, base, r, ws)
  {
    forall t: nat | t < n ensures BoxRel(base, r.pc, r.pending, r.boxes[t], ws[t], t) {
      assert BoxRel(base, cl.pc, cl.pending, cl.boxes[t], ws[t], t);
      SimSame(ws[t], base, cl.boxes[t], r.boxes[t]);
    }
  }

  /** A client that is done with the flush of box s, or was in none, may go anywhere but into
      a flush of inpb_write. */
  lemma PhasesAfter(n: nat, base: nat, cl: Client, ws: seq<BR.Wire>, r: Client, s: nat)
    requires BoxesRel(n, base, cl, ws) && !r.pc.PutFlush?
    requires forall t: nat :: t < n && FlushesAt(cl.pc, cl.pending, t) ==> t == s
    ensures PhasesElsewhere(n, r, ws, s)
  {
    forall t: nat | t < n && t != s ensures PhaseOk(r.pc, r.pending, ws[t], t) {
      assert BoxRel(base, cl.pc, cl.pending, cl.boxes[t], ws[t], t);
    }
  }

  ghost predicate ServersSame(ws: seq<BR.Wire>, ws': seq<BR.Wire>) {
    |ws'| == |ws| && forall t: nat :: t < |ws| ==> ws'[t].server == ws[t].server
  }

  lemma At(n: nat, base: nat, cl: Client, ws: seq<BR.Wire>, s: nat)
    requires BoxesRel(n, base, cl, ws) && s < n
    ensures BoxRel(base, cl.pc, cl.pending, cl.boxes[s], ws[s], s) && BR.Shape(ws[s])
  {
    assert BoxRel(base, cl.pc, cl.pending, cl.boxes[s], ws[s], s);
    ShapeOfSim(ws[s], base, cl.boxes[s]);
  }

  /** An access that is no step of System. */
  lemma Stutter(n: nat, base: nat, cl: Client, ws: seq<BR.Wire>, s: nat, step: BR.Step)
    requires BoxesRel(n, base, cl, ws) && s < n && BR.CanDo(ws[s], step)
    requires BR.BoxAfter(ws[s], step, cl.boxes[s]) == cl.boxes[s]
    requires PhaseOk(cl.pc, cl.pending, BR.Next(ws[s], step), s)
    ensures BoxesRel(n, base, cl, ws[s := BR.Next(ws[s], step)])
  {
    forall t: nat | t < n && t != s ensures PhaseOk(cl.pc, cl.pending, ws[t], t) {
      assert BoxRel(base, cl.pc, cl.pending, cl.boxes[t], ws[t], t);
    }
    Touched(n, base, cl, ws, s, step, cl);
  }

  lemma LocalFlushed(cl: Client, s: nat, pc: Pc)
    requires s < |cl.boxes|
    ensures Local(Flushed(cl, s).(pc := pc)) == Local(cl).(pc := pc)
  {
  }

  lemma PublishedInput(i: InputRing.State)
    requires InputRing.Shape(i) && i.writer.Publish? && i.local != []
    ensures InputRing.WriterStep(i).writer.Ready?
  {
  }

  lemma PublishWire(w: BR.Wire, base: nat, b: Box)
    requires SimBox(w, base, b) && w.input.writer.Publish? && BR.CanDo(w, BR.WriterGo)
    ensures var r := BR.Next(w, BR.WriterGo); r.input.writer.Ready? && r.want == None && r.server == w.server
    ensures b.local != [] && |b.ring| < INPB_COUNT
    ensures BR.BoxAfter(w, BR.WriterGo, b)
            == b.(ring := b.ring + [b.local], local := if w.want.Some? then [w.want.value] else [])
  {
    StepSim(w, base, b, BR.WriterGo);
    LocalEmpty(w, base, b);
    PublishedInput(w.input);
    PublishedWire(w);
  }

  lemma PublishedWire(w: BR.Wire)
    requires BR.Shape(w) && w.input.writer.Publish?
    ensures var r := BR.Next(w, BR.WriterGo);
            r.input == InputRing.WriterStep(w.input) && r.want == None && r.server == w.server
  {
  }

  /** The steps of inpb_flush before that. */
  lemma FlushWire(w: BR.Wire, b: Box, step: BR.Step)
    requires BR.CanDo(w, step)
             && (if step == BR.Flush then w.input.local != [] else step == BR.WriterGo && !w.input.writer.Ready?)
    requires !w.input.writer.Publish?
    ensures BR.BoxAfter(w, step, b) == b
    ensures var r := BR.Next(w, step); !r.input.writer.Ready? && r.want == w.want && r.server == w.server
  {
  }

  /** The publishing store of inpb_flush. */
  lemma FlushEnds(n: nat, base: nat, cl: Client, ws: seq<BR.Wire>, s: nat, done: Pc)
    requires BoxesRel(n, base, cl, ws) && s < n && !cl.pc.PutFlush? && !done.PutFlush?
    requires forall t: nat :: t < n && FlushesAt(cl.pc, cl.pending, t) ==> t == s
    requires ws[s].input.writer.Publish? && BR.CanDo(ws[s], BR.WriterGo)
    ensures FlushReady(cl, s) && BoxesRel(n, base, Flushed(cl, s).(pc := done), ws[s := BR.Next(ws[s], BR.WriterGo)])
    ensures ServersSame(ws, ws[s := BR.Next(ws[s], BR.WriterGo)])
  {
    At(n, base, cl, ws, s);
    PublishWire(ws[s], base, cl.boxes[s]);
    var r := Flushed(cl, s).(pc := done);
    PhasesAfter(n, base, cl, ws, r, s);
    Touched(n, base, cl, ws, s, BR.WriterGo, r);
  }

  lemma NothingToFlush(n: nat, base: nat, cl: Client, ws: seq<BR.Wire>, s: nat, done: Pc)
    requires BoxesRel(n, base, cl, ws) && s < n && !cl.pc.PutFlush? && !done.PutFlush?
    requires forall t: nat :: t < n && FlushesAt(cl.pc, cl.pending, t) ==> t == s
    requires ws[s].input.writer.Ready? && ws[s].input.local == []
    ensures FlushReady(cl, s) && Flushed(cl, s) == cl && BoxesRel(n, base, cl.(pc := done), ws)
  {
    At(n, base, cl, ws, s);
    LocalEmpty(ws[s], base, cl.boxes[s]);
    var r := cl.(pc := done);
    PhasesAfter(n, base, cl, ws, r, s);
    Untouched(n, base, cl, ws, r);
  }

  lemma FlushGoesOn(n: nat, base: nat, cl: Client, ws: seq<BR.Wire>, s: nat, step: BR.Step)
    requires BoxesRel(n, base, cl, ws) && s < n && FlushesAt(cl.pc, cl.pending, s)
    requires BR.CanDo(ws[s], step) && !ws[s].input.writer.Publish?
    requires if step == BR.Flush then ws[s].input.local != [] else step == BR.WriterGo && !ws[s].input.writer.Ready?
    ensures BoxesRel(n, base, cl, ws[s := BR.Next(ws[s], step)])
    ensures ServersSame(ws, ws[s := BR.Next(ws[s], step)])
  {
    At(n, base, cl, ws, s);
    FlushWire(ws[s], cl.boxes[s], step);
    Stutter(n, base, cl, ws, s, step);
  }

  lemma FlushCase(n: nat, base: nat, cl: Client, ws: seq<BR.Wire>, s: nat, done: Pc) returns (fin: bool)
    requires BoxesRel(n, base, cl, ws) && s < n && !cl.pc.PutFlush? && !done.PutFlush?
    requires FlushesAt(cl.pc, cl.pending, s)
    ensures fin ==> FlushReady(cl, s)
    ensures var (th, ws') := FlushGo(Local(cl), ws, s, done);
            && ServersSame(ws, ws')
            && th == (if fin then Local(Flushed(cl, s).(pc := done)) else Local(cl))
            && BoxesRel(n, base, if fin then Flushed(cl, s).(pc := done) else cl, ws')
  {
    At(n, base, cl, ws, s);
    LocalFlushed(cl, s, done);
    if ws[s].input.writer.Ready? {
      fin := ws[s].input.local == [];
      if fin { NothingToFlush(n, base, cl, ws, s, done); } else { FlushGoesOn(n, base, cl, ws, s, BR.Flush); }
    } else {
      fin := ws[s].input.writer.Publish?;
      if fin { FlushEnds(n, base, cl, ws, s, done); } else { FlushGoesOn(n, base, cl, ws, s, BR.WriterGo); }
    }
  }

  // inpb_write.

  lemma WriteWire(w: BR.Wire, base: nat, b: Box, op: Op)
    requires SimBox(w, base, b) && BR.CanDo(w, BR.Write(op))
    ensures var r := BR.Next(w, BR.Write(op));
            && r.server == w.server
            && (r.input.writer.Ready? <==> WordsOf(b.local) + System.Words(op) <= INPB_SIZE)
            && r.want == (if r.input.writer.Ready? then w.want else Some(op))
            && BR.BoxAfter(w, BR.Write(op), b) == (if r.input.writer.Ready? then b.(local := b.local + [op]) else b)
  {
    StepSim(w, base, b, BR.Write(op));
  }

  /** The client's credit is the wire's. */
  lemma MayWrite(n: nat, maxSize: nat, base: nat, cl: Client, ws: seq<BR.Wire>)
    requires Control.ClientOk(n, maxSize, cl) && BoxesRel(n, base, cl, ws) && cl.pc.Put? && PcInRange(cl.pc)
    ensures cl.pc.s < n && BR.CanDo(ws[cl.pc.s], BR.Write(cl.pc.op)) && ws[cl.pc.s].want == None
  {
    var s := cl.pc.s;
    At(n, base, cl, ws, s);
    WireCredit(n, base, cl, ws[s], s);
  }

  lemma PutFits(n: nat, base: nat, cl: Client, ws: seq<BR.Wire>, s: nat, op: Op, pc: Pc)
    requires BoxesRel(n, base, cl, ws) && s < n == |cl.credit| && BR.CanDo(ws[s], BR.Write(op)) && ws[s].want == None
    requires BR.Next(ws[s], BR.Write(op)).input.writer.Ready? && cl.pc.Put? && !pc.PutFlush?
    ensures var ws' := ws[s := BR.Next(ws[s], BR.Write(op))];
            ServersSame(ws, ws') && BoxesRel(n, base, Append(cl, s, op).(pc := pc), ws')
  {
    At(n, base, cl, ws, s);
    WriteWire(ws[s], base, cl.boxes[s], op);
    var r := Append(cl, s, op).(pc := pc);
    PhasesAfter(n, base, cl, ws, r, s);
    Touched(n, base, cl, ws, s, BR.Write(op), r);
  }

  lemma PutBlocks(n: nat, base: nat, cl: Client, ws: seq<BR.Wire>, s: nat, op: Op, batch: bool)
    requires BoxesRel(n, base, cl, ws) && s < n && BR.CanDo(ws[s], BR.Write(op)) && ws[s].want == None
    requires !BR.Next(ws[s], BR.Write(op)).input.writer.Ready? && cl.pc.Put?
    ensures var ws' := ws[s := BR.Next(ws[s], BR.Write(op))];
            ServersSame(ws, ws') && BoxesRel(n, base, cl.(pc := PutFlush(s, op, batch)), ws')
  {
    At(n, base, cl, ws, s);
    WriteWire(ws[s], base, cl.boxes[s], op);
    var r := cl.(pc := PutFlush(s, op, batch));
    forall t: nat | t < n && t != s ensures PhaseOk(r.pc, r.pending, ws[t], t) {
      assert BoxRel(base, cl.pc, cl.pending, cl.boxes[t], ws[t], t);
    }
    Touched(n, base, cl, ws, s, BR.Write(op), r);
  }

  lemma PutCase(n: nat, maxSize: nat, base: nat, cl: Client, ws: seq<BR.Wire>)
    requires Control.ClientOk(n, maxSize, cl) && BoxesRel(n, base, cl, ws) && cl.pc.Put? && PcInRange(cl.pc)
    ensures var (th, ws') := PutGo(Local(cl), ws, cl.pc.s, cl.pc.op, cl.pc.batch);
            ServersSame(ws, ws') && th == Local(Go1(n, cl)) && BoxesRel(n, base, Go1(n, cl), ws')
  {
    var s, op, batch := cl.pc.s, cl.pc.op, cl.pc.batch;
    MayWrite(n, maxSize, base, cl, ws);
    At(n, base, cl, ws, s);
    WriteWire(ws[s], base, cl.boxes[s], op);
    if BR.Next(ws[s], BR.Write(op)).input.writer.Ready? {
      LocalAppend(cl, s, op);
      PutFits(n, base, cl, ws, s, op, AfterPut(s, op, batch));
    } else {
      PutBlocks(n, base, cl, ws, s, op, batch);
    }
  }

  lemma WrittenBoxes(cl: Client, s: nat, op: Op)
    requires s < |cl.boxes| == |cl.credit|
    ensures OthersSame(cl, Append(Publish(cl, s), s, op), s)
    ensures var b := cl.boxes[s];
            SameRings(b.(ring := b.ring + [b.local], local := [op]), Append(Publish(cl, s), s, op).boxes[s])
  {
    assert [] + [op] == [op];
  }

  /** Publish and Append together are what the wire does. */
  lemma PublishAndWrite(n: nat, base: nat, cl: Client, ws: seq<BR.Wire>, s: nat, op: Op, pc: Pc)
    requires BoxesRel(n, base, cl, ws) && s < n == |cl.credit| && cl.pc.PutFlush? && cl.pc.s == s && cl.pc.op == op
    requires ws[s].input.writer.Publish? && BR.CanDo(ws[s], BR.WriterGo) && !pc.PutFlush?
    ensures FlushReady(cl, s) && cl.boxes[s].local != [] && Publish(cl, s).boxes[s].local == []
    ensures var ws' := ws[s := BR.Next(ws[s], BR.WriterGo)];
            ServersSame(ws, ws') && BoxesRel(n, base, Append(Publish(cl, s), s, op).(pc := pc), ws')
  {
    At(n, base, cl, ws, s);
    PublishWire(ws[s], base, cl.boxes[s]);
    var r := Append(Publish(cl, s), s, op).(pc := pc);
    WrittenBoxes(cl, s, op);
    PhasesAfter(n, base, cl, ws, r, s);
    Touched(n, base, cl, ws, s, BR.WriterGo, r);
  }

  lemma TwoSteps(n: nat, maxSize: nat, cl: Client)
    requires Control.ClientOk(n, maxSize, cl) && cl.pc.PutFlush? && FlushReady(cl, cl.pc.s)
    requires cl.boxes[cl.pc.s].local != []
    ensures var s, op, batch := cl.pc.s, cl.pc.op, cl.pc.batch;
            Reaches(n, maxSize, cl, Append(Publish(cl, s), s, op).(pc := AfterPut(s, op, batch)))
  {
    Control.PutStepOk(n, maxSize, cl);
    assert Go1(n, cl) == Publish(cl, cl.pc.s).(pc := Put(cl.pc.s, cl.pc.op, cl.pc.batch));
  }

  /** The flush inpb_write made ends, and the request is written at once. */
  lemma PutFlushEnds(n: nat, maxSize: nat, base: nat, cl: Client, ws: seq<BR.Wire>) returns (r: Client)
    requires Control.ClientOk(n, maxSize, cl) && BoxesRel(n, base, cl, ws) && cl.pc.PutFlush?
    requires cl.pc.s < n && ws[cl.pc.s].input.writer.Publish? && BR.CanDo(ws[cl.pc.s], BR.WriterGo)
    ensures Reaches(n, maxSize, cl, r) && PcInRange(r.pc)
    ensures Sent(Local(cl), cl.pc.s, cl.pc.op, cl.pc.batch) == Local(r)
    ensures var ws' := ws[cl.pc.s := BR.Next(ws[cl.pc.s], BR.WriterGo)];
            ServersSame(ws, ws') && BoxesRel(n, base, r, ws')
  {
    var s, op := cl.pc.s, cl.pc.op;
    var pc := AfterPut(s, op, cl.pc.batch);
    PublishAndWrite(n, base, cl, ws, s, op, pc);
    TwoSteps(n, maxSize, cl);
    LocalPublished(cl, s, op);
    r := Append(Publish(cl, s), s, op).(pc := pc);
  }

  lemma LocalPublished(cl: Client, s: nat, op: Op)
    requires s < |cl.boxes| == |cl.credit|
    ensures Local(Append(Local(cl), s, op)) == Local(Append(Publish(cl, s), s, op))
  {
  }

  lemma PutFlushCase(n: nat, maxSize: nat, base: nat, cl: Client, ws: seq<BR.Wire>) returns (r: Client)
    requires Control.ClientOk(n, maxSize, cl) && BoxesRel(n, base, cl, ws) && cl.pc.PutFlush? && PcInRange(cl.pc)
    ensures Reaches(n, maxSize, cl, r) && PcInRange(r.pc)
    ensures var (th, ws') := PutFlushGo(Local(cl), ws, cl.pc.s, cl.pc.op, cl.pc.batch);
            ServersSame(ws, ws') && th == Local(r) && BoxesRel(n, base, r, ws')
  {
    At(n, base, cl, ws, cl.pc.s);
    if ws[cl.pc.s].input.writer.Publish? {
      r := PutFlushEnds(n, maxSize, base, cl, ws);
    } else {
      FlushGoesOn(n, base, cl, ws, cl.pc.s, BR.WriterGo);
      r := cl;
    }
  }

  // outb_read and outb_blocking_read.

  lemma TakeWire(w: BR.Wire, base: nat, b: Box)
    requires SimBox(w, base, b) && BR.Shape(w)
    ensures var r := BR.Next(w, BR.TakeGo); r.server == w.server && r.want == w.want && r.input == w.input
    ensures if w.output.reader.Fetch? then b.out != [] && BR.BoxAfter(w, BR.TakeGo, b) == b.(out := b.out[1..])
            else BR.BoxAfter(w, BR.TakeGo, b) == b
  {
    StepSim(w, base, b, BR.TakeGo);
  }

  /** Looking leaves everything as it is; an outb_read that finds nothing is over. */
  lemma LookCase(n: nat, base: nat, cl: Client, ws: seq<BR.Wire>, s: nat, pc: Pc)
    requires BoxesRel(n, base, cl, ws) && s < n && BR.Shape(ws[s]) && !ws[s].output.reader.Fetch?
    requires cl.pc.Read? || cl.pc.ReadBlock? || cl.pc.Drain?
    requires pc == cl.pc || pc.ReadFlush?
    ensures var ws' := ws[s := BR.Next(ws[s], BR.TakeGo)];
            ServersSame(ws, ws') && BoxesRel(n, base, cl.(pc := pc), ws')
  {
    At(n, base, cl, ws, s);
    TakeWire(ws[s], base, cl.boxes[s]);
    var r := cl.(pc := pc);
    PhasesAfter(n, base, cl, ws, r, s);
    Touched(n, base, cl, ws, s, BR.TakeGo, r);
  }

  lemma TakenBoxes(n: nat, cl: Client, task: Option<Task>)
    requires DataOk(n, cl) && CanTake(cl)
    ensures var s := cl.pending[0];
            var r := if task.Some? then AfterTake(Take(cl), task.value) else Take(cl);
            OthersSame(cl, r, s) && SameRings(cl.boxes[s].(out := cl.boxes[s].out[1..]), r.boxes[s])
  {
    TakeOk(n, cl);
    var t := Take(cl);
    if task.Some? && task.value.Deliver? && t.rd < |t.got| { DeliverOk(n, t); }
  }

  lemma FetchKeeps(n: nat, base: nat, cl: Client, ws: seq<BR.Wire>, s: nat, r: Client)
    requires BoxesRel(n, base, cl, ws) && s < n && BR.Shape(ws[s]) && ws[s].output.reader.Fetch?
    requires (cl.pc.Read? || cl.pc.ReadBlock? || cl.pc.Drain?) && !r.pc.PutFlush?
    requires cl.boxes[s].out != [] && OthersSame(cl, r, s)
    requires SameRings(cl.boxes[s].(out := cl.boxes[s].out[1..]), r.boxes[s])
    ensures var ws' := ws[s := BR.Next(ws[s], BR.TakeGo)]; ServersSame(ws, ws') && BoxesRel(n, base, r, ws')
  {
    At(n, base, cl, ws, s);
    TakeWire(ws[s], base, cl.boxes[s]);
    PhasesAfter(n, base, cl, ws, r, s);
    Touched(n, base, cl, ws, s, BR.TakeGo, r);
  }

  lemma FetchCase(n: nat, base: nat, cl: Client, ws: seq<BR.Wire>, task: Option<Task>) returns (r: Client)
    requires DataOk(n, cl) && BoxesRel(n, base, cl, ws) && cl.pending != []
    requires cl.pending[0] < n && ws[cl.pending[0]].output.reader.Fetch?
    requires if task.Some? then cl.pc == Read(task.value) || cl.pc == ReadBlock(task.value) else cl.pc.Drain?
    ensures CanTake(cl) && r == (if task.Some? then AfterTake(Take(cl), task.value) else Take(cl))
    ensures var s := cl.pending[0];
            var ws' := ws[s := BR.Next(ws[s], BR.TakeGo)];
            && CanHear(Local(cl))
            && AfterHear(Local(cl), ws[s].output.data[ws[s].output.localRd % OUTB_SIZE]) == Local(r)
            && ServersSame(ws, ws') && BoxesRel(n, base, r, ws')
  {
    var s := cl.pending[0];
    At(n, base, cl, ws, s);
    FetchWord(ws[s], base, cl.boxes[s]);
    Control.CreditPositive(n, cl);
    LocalTake(n, cl, W.ReplyWord(cl.boxes[s].out[0]));
    r := if task.Some? then AfterTake(Take(cl), task.value) else Take(cl);
    if task.Some? { LocalAfterTake(Take(cl), task.value); }
    TakenBoxes(n, cl, task);
    FetchKeeps(n, base, cl, ws, s, r);
  }

  /** What System does at an outb_read, if anything. */
  ghost predicate TakeMove(cl: Client, task: Option<Task>, r: Client) {
    || r == cl
    || (CanTake(cl) && r == (if task.Some? then AfterTake(Take(cl), task.value) else Take(cl)))
    || (!CanTake(cl) && cl.pc.Read? && r == cl.(pc := ReadFlush(cl.pc.task)))
  }

  lemma TakeCase(n: nat, base: nat, cl: Client, ws: seq<BR.Wire>, task: Option<Task>) returns (r: Client)
    requires DataOk(n, cl) && BoxesRel(n, base, cl, ws) && cl.pending != []
    requires if task.Some? then cl.pc == Read(task.value) || cl.pc == ReadBlock(task.value) else cl.pc.Drain?
    ensures TakeMove(cl, task, r)
    ensures var (th, ws') := TakeGo(Local(cl), ws); ServersSame(ws, ws') && th == Local(r) && BoxesRel(n, base, r, ws')
  {
    var s := cl.pending[0];
    CanHearIt(n, cl);
    At(n, base, cl, ws, s);
    var out := ws[s].output;
    if out.reader.Fetch? {
      r := FetchCase(n, base, cl, ws, task);
    } else {
      var over := out.reader.Look? && out.localRd == out.wrIndex && cl.pc.Read?;
      if over { LookEmpty(ws[s], base, cl.boxes[s]); }
      r := if over then cl.(pc := ReadFlush(cl.pc.task)) else cl;
      LookCase(n, base, cl, ws, s, r.pc);
    }
  }

  lemma OneStep(n: nat, maxSize: nat, cl: Client, r: Client)
    requires Control.ClientOk(n, maxSize, cl) && Enabled(n, maxSize, cl, Go) && r == Go1(n, cl)
    ensures Reaches(n, maxSize, cl, r)
  {
  }

  lemma TakeReaches(n: nat, maxSize: nat, cl: Client, task: Option<Task>, r: Client)
    requires Control.ClientOk(n, maxSize, cl) && TakeMove(cl, task, r) && cl.pending != []
    requires if task.Some? then cl.pc == Read(task.value) || cl.pc == ReadBlock(task.value) else cl.pc.Drain?
    ensures Reaches(n, maxSize, cl, r)
  {
    if r != cl { OneStep(n, maxSize, cl, r); }
  }

  lemma TakeInRange(cl: Client, task: Option<Task>, r: Client)
    requires TakeMove(cl, task, r) && PcInRange(cl.pc)
    requires if task.Some? then cl.pc == Read(task.value) || cl.pc == ReadBlock(task.value) else cl.pc.Drain?
    ensures PcInRange(r.pc)
  {
  }

  lemma PendingThere(n: nat, maxSize: nat, cl: Client)
    requires Control.ClientOk(n, maxSize, cl) && (cl.pc.Read? || cl.pc.ReadFlush? || cl.pc.ReadBlock?)
    ensures cl.pending != [] && cl.pending[0] < n
  {
  }

  lemma ReadCase(n: nat, maxSize: nat, base: nat, cl: Client, ws: seq<BR.Wire>, task: Option<Task>) returns (r: Client)
    requires Control.ClientOk(n, maxSize, cl) && BoxesRel(n, base, cl, ws) && PcInRange(cl.pc) && cl.pending != []
    requires if task.Some? then cl.pc == Read(task.value) || cl.pc == ReadBlock(task.value) else cl.pc.Drain?
    ensures Reaches(n, maxSize, cl, r) && PcInRange(r.pc)
    ensures var (th, ws') := ThreadGo(n, Local(cl), ws);
            ServersSame(ws, ws') && th == Local(r) && BoxesRel(n, base, r, ws')
  {
    r := TakeCase(n, base, cl, ws, task);
    TakeReaches(n, maxSize, cl, task, r);
    TakeInRange(cl, task, r);
  }

  lemma {:induction false} DeliveredBoxes(n: nat, cl: Client)
    requires DataOk(n, cl)
    ensures OthersSame(cl, DeliverAll(cl), n)
    decreases |cl.got| - cl.rd
  {
    if cl.rd < |cl.got| && cl.got[cl.rd].0 < |cl.boxes| {
      DeliverOk(n, cl);
      DeliveredBoxes(n, DeliverNext(cl));
    }
  }

  /** The last step of smp_hash_doall makes no access. */
  lemma DrainEnds(n: nat, maxSize: nat, base: nat, cl: Client, ws: seq<BR.Wire>)
    requires DataOk(n, cl) && BoxesRel(n, base, cl, ws) && cl.pc.Drain?
    ensures var r := DeliverAll(cl).(pc := Idle(false));
            DeliverAll(Local(cl)).(pc := Idle(false)) == Local(r) && BoxesRel(n, base, r, ws)
  {
    LocalDeliverAll(cl);
    DeliveredBoxes(n, cl);
    DrainedBoxes(n, base, cl, ws, DeliverAll(cl));
  }

  lemma DrainedBoxes(n: nat, base: nat, cl: Client, ws: seq<BR.Wire>, d: Client)
    requires BoxesRel(n, base, cl, ws) && cl.pc.Drain? && OthersSame(cl, d, n)
    ensures BoxesRel(n, base, d.(pc := Idle(false)), ws)
  {
    PhasesAfter(n, base, cl, ws, d.(pc := Idle(false)), n);
    Untouched(n, base, cl, ws, d.(pc := Idle(false)));
  }

  /** Steps that only move the program counter. */
  lemma PcCase(n: nat, base: nat, cl: Client, ws: seq<BR.Wire>, pc: Pc)
    requires BoxesRel(n, base, cl, ws) && !pc.PutFlush? && forall t: nat :: t < n ==> !FlushesAt(cl.pc, cl.pending, t)
    ensures BoxesRel(n, base, cl.(pc := pc), ws)
  {
    PhasesAfter(n, base, cl, ws, cl.(pc := pc), n);
    Untouched(n, base, cl, ws, cl.(pc := pc));
  }

  lemma AdmitCase(n: nat, maxSize: nat, base: nat, cl: Client, ws: seq<BR.Wire>)
    requires Control.ClientOk(n, maxSize, cl) && BoxesRel(n, base, cl, ws) && cl.pc.Admit? && PcInRange(cl.pc)
    ensures Go1(n, Local(cl)) == Local(Go1(n, cl)) && PcInRange(Go1(n, cl).pc) && BoxesRel(n, base, Go1(n, cl), ws)
  {
    PcCase(n, base, cl, ws, Go1(n, cl).pc);
  }

  /** Where a flush is made, and what the client does after it. */
  function FlushTarget(cl: Client): (nat, Pc)
    requires cl.pc.ReadFlush? || cl.pc.ReadyFlush? || cl.pc.FlushAll?
  {
    match cl.pc
    case ReadFlush(task) => (if cl.pending == [] then 0 else cl.pending[0], ReadBlock(task))
    case ReadyFlush(s) => (s, Idle(false))
    case FlushAll(s) => (s, FlushAll(s + 1))
  }

  ghost predicate InFlush(n: nat, cl: Client) {
    && (cl.pc.ReadFlush? || cl.pc.ReadyFlush? || cl.pc.FlushAll?) && (cl.pc.ReadFlush? ==> cl.pending != [])
    && FlushTarget(cl).0 < n
  }

  ghost function FlushedOn(cl: Client): Client
    requires InFlush(|cl.boxes|, cl)
  {
    Flushed(cl, FlushTarget(cl).0).(pc := FlushTarget(cl).1)
  }

  lemma TargetInRange(n: nat, maxSize: nat, cl: Client)
    requires Control.ClientOk(n, maxSize, cl)
    requires cl.pc.ReadFlush? || cl.pc.ReadyFlush? || (cl.pc.FlushAll? && cl.pc.s < n)
    ensures InFlush(n, cl) && ThreadShape(n, cl)
  {
  }

  lemma FlushReaches(n: nat, maxSize: nat, cl: Client)
    requires Control.ClientOk(n, maxSize, cl) && InFlush(n, cl) && FlushReady(cl, FlushTarget(cl).0)
    ensures Reaches(n, maxSize, cl, FlushedOn(cl))
  {
    OneStep(n, maxSize, cl, FlushedOn(cl));
  }

  lemma GoFlushes(n: nat, cl: Client, ws: seq<BR.Wire>)
    requires ThreadShape(n, cl) && InFlush(n, cl)
    ensures var (s, done) := FlushTarget(cl); ThreadGo(n, Local(cl), ws) == FlushGo(Local(cl), ws, s, done)
  {
  }

  lemma FlushMoves(n: nat, base: nat, cl: Client, ws: seq<BR.Wire>) returns (r: Client)
    requires ThreadShape(n, cl) && BoxesRel(n, base, cl, ws) && PcInRange(cl.pc) && InFlush(n, cl)
    ensures r == cl || (FlushReady(cl, FlushTarget(cl).0) && r == FlushedOn(cl))
    ensures PcInRange(r.pc)
    ensures var (th, ws') := ThreadGo(n, Local(cl), ws);
            ServersSame(ws, ws') && th == Local(r) && BoxesRel(n, base, r, ws')
  {
    GoFlushes(n, cl, ws);
    var (s, done) := FlushTarget(cl);
    var fin := FlushCase(n, base, cl, ws, s, done);
    r := if fin then FlushedOn(cl) else cl;
  }

  lemma FlushingCase(n: nat, maxSize: nat, base: nat, cl: Client, ws: seq<BR.Wire>) returns (r: Client)
    requires Control.ClientOk(n, maxSize, cl) && BoxesRel(n, base, cl, ws) && PcInRange(cl.pc)
    requires cl.pc.ReadFlush? || cl.pc.ReadyFlush? || (cl.pc.FlushAll? && cl.pc.s < n)
    ensures Reaches(n, maxSize, cl, r) && PcInRange(r.pc)
    ensures var (th, ws') := ThreadGo(n, Local(cl), ws);
            ServersSame(ws, ws') && th == Local(r) && BoxesRel(n, base, r, ws')
  {
    TargetInRange(n, maxSize, cl);
    r := FlushMoves(n, base, cl, ws);
    if r != cl { FlushReaches(n, maxSize, cl); }
  }

  /** Steps of System that read and write nothing shared. */
  lemma QuietCase(n: nat, maxSize: nat, base: nat, cl: Client, ws: seq<BR.Wire>)
    requires Control.ClientOk(n, maxSize, cl) && BoxesRel(n, base, cl, ws) && PcInRange(cl.pc)
    requires cl.pc.Admit? || cl.pc == FlushAll(n) || (cl.pc.Drain? && cl.pending == [])
    ensures ThreadGo(n, Local(cl), ws) == (Local(Go1(n, cl)), ws)
    ensures PcInRange(Go1(n, cl).pc) && BoxesRel(n, base, Go1(n, cl), ws)
  {
    match cl.pc
    case Admit(_, _) => AdmitCase(n, maxSize, base, cl, ws);
    case FlushAll(_) => PcCase(n, base, cl, ws, Drain);
    case Drain => DrainEnds(n, maxSize, base, cl, ws);
  }

  /** Each access inside an operation is none, one or two steps of System. */
  lemma ThreadGoOk(n: nat, maxSize: nat, base: nat, cl: Client, ws: seq<BR.Wire>) returns (r: Client)
    requires Control.ClientOk(n, maxSize, cl) && BoxesRel(n, base, cl, ws) && PcInRange(cl.pc)
    ensures Reaches(n, maxSize, cl, r) && PcInRange(r.pc)
    ensures var (th, ws') := ThreadGo(n, Local(cl), ws);
            ServersSame(ws, ws') && th == Local(r) && BoxesRel(n, base, r, ws')
  {
    if cl.pc.Idle? {
      r := cl;
    } else if cl.pc.Admit? || cl.pc == FlushAll(n) || (cl.pc.Drain? && cl.pending == []) {
      QuietCase(n, maxSize, base, cl, ws);
      r := Go1(n, cl);
      OneStep(n, maxSize, cl, r);
    } else if cl.pc.Put? {
      PutCase(n, maxSize, base, cl, ws);
      r := Go1(n, cl);
      OneStep(n, maxSize, cl, r);
    } else if cl.pc.PutFlush? {
      r := PutFlushCase(n, maxSize, base, cl, ws);
    } else {
      r := WaitingCase(n, maxSize, base, cl, ws);
    }
  }

  lemma WaitingCase(n: nat, maxSize: nat, base: nat, cl: Client, ws: seq<BR.Wire>) returns (r: Client)
    requires Control.ClientOk(n, maxSize, cl) && BoxesRel(n, base, cl, ws) && PcInRange(cl.pc)
    requires match cl.pc
             case FlushAll(s) => s != n
             case Drain => cl.pending != []
             case Idle(_) => false
             case Admit(_, _) => false
             case Put(_, _, _) => false
             case PutFlush(_, _, _) => false
             case _ => true
    ensures Reaches(n, maxSize, cl, r) && PcInRange(r.pc)
    ensures var (th, ws') := ThreadGo(n, Local(cl), ws);
            ServersSame(ws, ws') && th == Local(r) && BoxesRel(n, base, r, ws')
  {
    if cl.pc.Read? || cl.pc.ReadBlock? {
      PendingThere(n, maxSize, cl);
      r := ReadCase(n, maxSize, base, cl, ws, Some(cl.pc.task));
    } else if cl.pc.Drain? {
      r := ReadCase(n, maxSize, base, cl, ws, None);
    } else {
      r := FlushingCase(n, maxSize, base, cl, ws);
    }
  }

  lemma {:induction false} BoxesSameAfter(n: nat, cl: Client, a: Act)
    requires n > 0 && DataOk(n, cl) && a != Go
    ensures OthersSame(cl, ClientStep(n, cl, a), n)
  {
    if a == Get {
      if cl.later != [] { DeliverLaterOk(n, cl); } else if cl.rd < |cl.got| { DeliverOk(n, cl); }
    }
  }

  /** What the caller begins is one step of System. */
  lemma ThreadBeginOk(n: nat, maxSize: nat, base: nat, cl: Client, ws: seq<BR.Wire>, a: Act)
    requires Control.ClientOk(n, maxSize, cl) && BoxesRel(n, base, cl, ws) && PcInRange(cl.pc)
    requires a != Go && Enabled(n, maxSize, cl, a) && InRange(a)
    ensures ThreadRel(n, base, ClientStep(n, cl, a), ClientStep(n, Local(cl), a), ws)
  {
    var r := ClientStep(n, cl, a);
    LocalStep(n, maxSize, cl, a);
    BoxesSameAfter(n, cl, a);
    PhasesAfter(n, base, cl, ws, r, n);
    Untouched(n, base, cl, ws, r);
  }

  // One access of a server.

  /** The server after its step of System at box b of client sv.cursor. */
  function ServedServer(sv: Server, b: Box, nclients: nat): Server {
    if !sv.serving then
      if b.ring == [] then sv.(cursor := System.Next(sv.cursor, nclients)) else sv.(serving := true)
    else if b.hand != [] then
      var (p, a) := Exec(Messages, sv.part, b.hand[0]);
      sv.(part := p, log := sv.log + [(sv.cursor, Event(b.hand[0], a))])
    else sv.(serving := false, cursor := System.Next(sv.cursor, nclients))
  }

  /** The words at position k say what the request in hand says. */
  lemma CaseIsExec(words: seq<nat>, k: nat, ops: seq<Op>, q: Part)
    requires k < |words| && BR.Encodes(words[k..], ops)
    ensures ops != [] && W.Case(q, words[k], if k + 1 < |words| then words[k + 1] else 0) == Exec(Messages, q, ops[0])
    ensures Exec(Messages, q, ops[0]).1.None? <==> W.OpOf(words[k]) == W.RELEASE
  {
    BR.FirstEncoded(words, k, ops);
    W.DecodeEncode(ops[0], W.EncodeAll(ops[1..]));
    W.ExecErase(q, ops[0]);
    Control.ExecAnswers(q, ops[0]);
    DecodedCase(words, k, q, W.Erase(ops[0]));
  }

  lemma DecodedCase(words: seq<nat>, k: nat, q: Part, op: Op)
    requires k < |words| && W.Decode(words[k..]) == Some(op)
    ensures W.Case(q, words[k], if k + 1 < |words| then words[k + 1] else 0) == Exec(Messages, q, op)
  {
  }

  lemma AnswerKind(p: Part, op: Op)
    ensures KindOk(Event(op, Exec(Messages, p, op).1))
  {
  }

  lemma ServedKinds(sv: Server, b: Box)
    requires KindsOk(b.served)
    ensures KindsOk(Control.ServedBox(sv, b).served)
  {
    if sv.serving && b.hand != [] { AnswerKind(sv.part, b.hand[0]); }
  }

  /** The accesses of a server that take effect in System: it finds the first word zero, or
      gives the slot back, or serves a request, or bumps the index of the output ring. */
  predicate Effect(w: BR.Wire)
    requires BR.Shape(w)
  {
    match w.server
    case Polling =>
      w.input.reader.Clear? || (w.input.reader == InputRing.Test([]) && w.input.data[w.input.dataRd][0] == 0)
    case Serving(words, k, _) => k < |words|
    case Pushing => w.output.writer.Bump?
  }

  ghost predicate WorkDone(nclients: nat, base: nat, sv: Server, b: Box, w: BR.Wire)
    requires BR.Shape(w)
  {
    var moved := Effect(w);
    var (wk, w') := WorkerGo(nclients, Worker(sv.part, sv.cursor), w);
    var sv' := if moved then ServedServer(sv, b, nclients) else sv;
    && wk == Worker(sv'.part, sv'.cursor)
    && SimBox(w', base, if moved then Control.ServedBox(sv, b) else b)
    && (sv'.serving <==> !w'.server.Polling?)
    && w'.want == w.want && w'.input.writer == w.input.writer
  }

  lemma ReaderKeepsWriter(i: InputRing.State)
    requires InputRing.Shape(i)
    ensures InputRing.ReaderStep(i).writer == i.writer
  {
  }

  lemma PollWork(nclients: nat, base: nat, sv: Server, b: Box, w: BR.Wire)
    requires SimBox(w, base, b) && BR.Shape(w) && !sv.serving && w.server.Polling?
    ensures WorkDone(nclients, base, sv, b, w)
  {
    StepSim(w, base, b, BR.ReadGo);
    ReaderKeepsWriter(w.input);
    if w.input.reader.Test? && InputRing.ReaderStep(w.input).reader.Out? { TestEmpty(w, base, b); }
  }

  lemma ServeWork(nclients: nat, base: nat, sv: Server, b: Box, w: BR.Wire)
    requires SimBox(w, base, b) && BR.Shape(w) && sv.serving && w.server.Serving?
    ensures WorkDone(nclients, base, sv, b, w)
  {
    var words, k := w.server.words, w.server.k;
    if k < |words| {
      BatchInHand(w, base, b);
      CaseIsExec(words, k, b.hand, sv.part);
      var a := Exec(Messages, sv.part, b.hand[0]).1;
      StepSim(w, base, b, BR.Serve(a));
    } else {
      StepSim(w, base, b, BR.Push);
    }
  }

  lemma BatchInHand(w: BR.Wire, base: nat, b: Box)
    requires SimBox(w, base, b) && w.server.Serving? && w.server.k < |w.server.words|
    ensures BR.Encodes(w.server.words[w.server.k..], b.hand)
  {
    var cached :| BR.Simulates(w, base, cached, b);
  }

  lemma PushWork(nclients: nat, base: nat, sv: Server, b: Box, w: BR.Wire)
    requires SimBox(w, base, b) && BR.Shape(w) && sv.serving && w.server.Pushing?
    ensures WorkDone(nclients, base, sv, b, w)
  {
    StepSim(w, base, b, BR.PushGo);
  }

  /** Each access of a server is no step of System, or the next one if it takes effect. */
  lemma WorkerGoOk(nclients: nat, base: nat, sv: Server, b: Box, w: BR.Wire)
    requires SimBox(w, base, b) && BR.Shape(w) && ServesRel(sv, sv.cursor, w)
    ensures WorkDone(nclients, base, sv, b, w)
  {
    match w.server
    case Polling => PollWork(nclients, base, sv, b, w);
    case Serving(_, _, _) => ServeWork(nclients, base, sv, b, w);
    case Pushing => PushWork(nclients, base, sv, b, w);
  }

  // Every access.

  lemma ClientAt(n: nat, maxSize: nat, base: nat, f: Fine, st: State, c: nat)
    requires Control.SystemOk(n, maxSize, st) && Rel(n, base, f, st) && c < |st.clients|
    ensures Control.ClientOk(n, maxSize, st.clients[c]) && ThreadRel(n, base, st.clients[c], f.threads[c], f.wires[c])
    ensures ThreadShape(n, f.threads[c])
  {
    assert ThreadRel(n, base, st.clients[c], f.threads[c], f.wires[c]);
  }

  lemma ThreadUpdate(n: nat, base: nat, f: Fine, st: State, c: nat, th: Client, ws: seq<BR.Wire>, r: Client)
    requires Rel(n, base, f, st) && c < |st.clients| && ThreadRel(n, base, r, th, ws) && ServersSame(f.wires[c], ws)
    ensures Rel(n, base, f.(threads := f.threads[c := th], wires := f.wires[c := ws]),
                st.(clients := st.clients[c := r]))
  {
    assert ThreadRel(n, base, st.clients[c], f.threads[c], f.wires[c]);
    forall s: nat | s < n ensures ServesRel(st.servers[s], c, ws[s]) {
      assert ServesRel(st.servers[s], c, f.wires[c][s]);
    }
  }

  /** One step of a thread: what happens to its client. */
  ghost predicate ThreadMove(n: nat, maxSize: nat, cl: Client, a: Act, r: Client)
    requires Control.ClientOk(n, maxSize, cl)
  {
    if a == Go then Reaches(n, maxSize, cl, r) else Enabled(n, maxSize, cl, a) && r == ClientStep(n, cl, a)
  }

  lemma ThreadStep(n: nat, maxSize: nat, base: nat, f: Fine, st: State, c: nat, a: Act) returns (r: Client)
    requires Control.SystemOk(n, maxSize, st) && Rel(n, base, f, st) && CanDo(n, maxSize, f, Thread(c, a))
    ensures c < |st.clients| && Control.ClientOk(n, maxSize, st.clients[c])
            && ThreadMove(n, maxSize, st.clients[c], a, r)
    ensures Rel(n, base, WordSystem.Next(n, f, Thread(c, a)), st.(clients := st.clients[c := r]))
  {
    ClientAt(n, maxSize, base, f, st, c);
    var cl, ws := st.clients[c], f.wires[c];
    if a == Go {
      r := ThreadGoOk(n, maxSize, base, cl, ws);
      var (th, ws') := ThreadGo(n, Local(cl), ws);
      ThreadUpdate(n, base, f, st, c, th, ws', r);
    } else {
      LocalStep(n, maxSize, cl, a);
      ThreadBeginOk(n, maxSize, base, cl, ws, a);
      r := ClientStep(n, cl, a);
      ThreadUpdate(n, base, f, st, c, ClientStep(n, Local(cl), a), ws, r);
      assert f.wires[c := ws] == f.wires;
    }
  }

  lemma WorkedBoxes(n: nat, base: nat, cl: Client, ws: seq<BR.Wire>, s: nat, b: Box, w: BR.Wire)
    requires BoxesRel(n, base, cl, ws) && s < n && SimBox(w, base, b) && KindsOk(b.served)
    requires w.want == ws[s].want && w.input.writer == ws[s].input.writer
    ensures BoxesRel(n, base, SetBox(cl, s, b), ws[s := w])
  {
    var r, ws' := SetBox(cl, s, b), ws[s := w];
    forall t: nat | t < n ensures BoxRel(base, r.pc, r.pending, r.boxes[t], ws'[t], t) {
      assert BoxRel(base, cl.pc, cl.pending, cl.boxes[t], ws[t], t);
    }
  }

  lemma LocalWorked(cl: Client, s: nat, b: Box)
    requires s < |cl.boxes| && b.held == cl.boxes[s].held
    ensures Local(SetBox(cl, s, b)) == Local(cl)
  {
  }

  /** Only the server's own wires change hands. */
  lemma ServesElsewhere(sv: Server, sv': Server, c: nat, w: BR.Wire)
    requires ServesRel(sv, c, w) && c != sv.cursor && (sv'.serving ==> sv'.cursor == sv.cursor)
    ensures ServesRel(sv', c, w)
  {
  }

  lemma WorkUpdate(n: nat, base: nat, f: Fine, st: State, s: nat, sv: Server, b: Box, w: BR.Wire)
    requires Rel(n, base, f, st) && s < n && st.servers[s].cursor < |st.clients|
    requires s < |st.clients[st.servers[s].cursor].boxes| && s < |f.wires[st.servers[s].cursor]|
    requires var c := st.servers[s].cursor;
             ThreadRel(n, base, SetBox(st.clients[c], s, b), f.threads[c], f.wires[c][s := w]) && ServesRel(sv, c, w)
    requires sv.serving ==> sv.cursor == st.servers[s].cursor
    ensures var c := st.servers[s].cursor;
            Rel(n, base,
                f.(workers := f.workers[s := Worker(sv.part, sv.cursor)], wires := f.wires[c := f.wires[c][s := w]]),
                State(st.clients[c := SetBox(st.clients[c], s, b)], st.servers[s := sv]))
  {
    var c := st.servers[s].cursor;
    var wires, servers := f.wires[c := f.wires[c][s := w]], st.servers[s := sv];
    var clients := st.clients[c := SetBox(st.clients[c], s, b)];
    forall d: nat | d < |clients| ensures ThreadRel(n, base, clients[d], f.threads[d], wires[d]) {
      if d != c { assert ThreadRel(n, base, st.clients[d], f.threads[d], f.wires[d]); }
    }
    forall d: nat, t: nat | d < |st.clients| && t < n ensures ServesRel(servers[t], d, wires[d][t]) {
      assert ServesRel(st.servers[t], d, f.wires[d][t]);
      if t == s && d != c { ServesElsewhere(st.servers[s], sv, d, f.wires[d][s]); }
    }
  }

  lemma ServedServerIs(n: nat, st: State, s: nat)
    requires Shape(n, st) && s < n
    ensures var c := st.servers[s].cursor; var b := st.clients[c].boxes[s];
            ServerStep(n, st, s)
            == State(st.clients[c := SetBox(st.clients[c], s, Control.ServedBox(st.servers[s], b))],
                     st.servers[s := ServedServer(st.servers[s], b, |st.clients|)])
  {
    Control.ServerStepClients(n, st, s);
  }

  lemma BoxOfWorker(n: nat, maxSize: nat, base: nat, f: Fine, st: State, s: nat)
    requires Control.SystemOk(n, maxSize, st) && Rel(n, base, f, st) && s < n
    ensures s < |f.workers| && f.workers[s].cursor < |f.wires| && s < |f.wires[f.workers[s].cursor]|
    ensures BR.Shape(f.wires[f.workers[s].cursor][s])
  {
    var c := st.servers[s].cursor;
    ClientAt(n, maxSize, base, f, st, c);
    At(n, base, st.clients[c], f.wires[c], s);
  }

  lemma WorkStep(n: nat, maxSize: nat, base: nat, f: Fine, st: State, s: nat) returns (moved: bool)
    requires Control.SystemOk(n, maxSize, st) && Rel(n, base, f, st) && s < n
    ensures s < |f.workers| && f.workers[s].cursor < |f.wires| && s < |f.wires[f.workers[s].cursor]|
    ensures BR.Shape(f.wires[f.workers[s].cursor][s]) && moved == Effect(f.wires[f.workers[s].cursor][s])
    ensures Rel(n, base, WordSystem.Next(n, f, Work(s)), if moved then ServerStep(n, st, s) else st)
  {
    var sv := st.servers[s];
    var c := sv.cursor;
    var cl, ws := st.clients[c], f.wires[c];
    var b := cl.boxes[s];
    BoxOfWorker(n, maxSize, base, f, st, s);
    ClientAt(n, maxSize, base, f, st, c);
    At(n, base, cl, ws, s);
    assert ServesRel(sv, c, ws[s]);
    WorkerGoOk(|st.clients|, base, sv, b, ws[s]);
    moved := Effect(ws[s]);
    var w := WorkerGo(|st.clients|, Worker(sv.part, sv.cursor), ws[s]).1;
    var sv', b' := if moved then ServedServer(sv, b, |st.clients|) else sv,
                   if moved then Control.ServedBox(sv, b) else b;
    ServedKinds(sv, b);
    WorkedBoxes(n, base, cl, ws, s, b', w);
    LocalWorked(cl, s, b');
    WorkUpdate(n, base, f, st, s, sv', b', w);
    ServedServerIs(n, st, s);
    Unchanged(st, c, s);
  }

  lemma Unchanged(st: State, c: nat, s: nat)
    requires c < |st.clients| && s < |st.servers| && s < |st.clients[c].boxes|
    ensures st
            == State(st.clients[c := SetBox(st.clients[c], s, st.clients[c].boxes[s])], st.servers[s := st.servers[s]])
  {
    assert SetBox(st.clients[c], s, st.clients[c].boxes[s]) == st.clients[c];
  }

  // Every run.

  lemma OneMore(n: nat, nclients: nat, maxSize: nat, run: seq<State>, steps: seq<Step>, step: Step, next: State)
    requires IsRun(n, nclients, maxSize, run, steps) && Linked(n, maxSize, run[|run| - 1], step, next)
    ensures IsRun(n, nclients, maxSize, run + [next], steps + [step])
  {
    var run', steps' := run + [next], steps + [step];
    forall i | 0 <= i < |steps'| ensures Linked(n, maxSize, run'[i], steps'[i], run'[i + 1]) {
      if i < |steps| { assert Linked(n, maxSize, run[i], steps[i], run[i + 1]); }
    }
  }

  lemma ClientMoves(n: nat, nclients: nat, maxSize: nat, run: seq<State>, steps: seq<Step>, c: nat, a: Act)
      returns (run': seq<State>, steps': seq<Step>)
    requires IsRun(n, nclients, maxSize, run, steps) && Shape(n, run[|run| - 1])
    requires c < |run[|run| - 1].clients| && Enabled(n, maxSize, run[|run| - 1].clients[c], a)
    ensures IsRun(n, nclients, maxSize, run', steps') && run <= run' && |run'| == |run| + 1
    ensures var st := run[|run| - 1];
            run'[|run'| - 1] == st.(clients := st.clients[c := ClientStep(n, st.clients[c], a)])
  {
    var st := run[|run| - 1];
    var next := Apply(n, st, ClientMove(c, a));
    OneMore(n, nclients, maxSize, run, steps, ClientMove(c, a), next);
    run', steps' := run + [next], steps + [ClientMove(c, a)];
  }

  lemma GoMoves(n: nat, nclients: nat, maxSize: nat, run: seq<State>, steps: seq<Step>, c: nat, r: Client)
      returns (run': seq<State>, steps': seq<Step>)
    requires IsRun(n, nclients, maxSize, run, steps) && Shape(n, run[|run| - 1]) && c < |run[|run| - 1].clients|
    requires Control.ClientOk(n, maxSize, run[|run| - 1].clients[c])
             && Reaches(n, maxSize, run[|run| - 1].clients[c], r)
    ensures IsRun(n, nclients, maxSize, run', steps') && run <= run' && |run'| <= |run| + 2
    ensures var st := run[|run| - 1]; run'[|run'| - 1] == st.(clients := st.clients[c := r])
  {
    var st := run[|run| - 1];
    run', steps' := run, steps;
    if r != st.clients[c] {
      run', steps' := ClientMoves(n, nclients, maxSize, run, steps, c, Go);
      if r != Go1(n, st.clients[c]) {
        Control.RunOk(n, nclients, maxSize, run', steps', |run'| - 1);
        run', steps' := ClientMoves(n, nclients, maxSize, run', steps', c, Go);
      }
    }
  }

  /** A run of System that ends in a state related to f. */
  ghost predicate Leads(n: nat, nclients: nat, maxSize: nat, base: nat, f: Fine, run: seq<State>, steps: seq<Step>) {
    IsRun(n, nclients, maxSize, run, steps) && Rel(n, base, f, run[|run| - 1])
  }

  /** Forward simulation: if a run of System ends in a state related to f, then some run
      that continues it by at most two steps ends in a state related to the next f. */
  lemma StepRefines(n: nat, nclients: nat, maxSize: nat, base: nat, f: Fine, run: seq<State>, steps: seq<Step>,
                    step: FineStep)
      returns (run': seq<State>, steps': seq<Step>)
    requires Leads(n, nclients, maxSize, base, f, run, steps) && CanDo(n, maxSize, f, step)
    ensures Leads(n, nclients, maxSize, base, WordSystem.Next(n, f, step), run', steps')
    ensures run <= run' && |run'| <= |run| + 2
  {
    var st := run[|run| - 1];
    Control.RunOk(n, nclients, maxSize, run, steps, |run| - 1);
    match step
    case Thread(c, a) =>
      var r := ThreadStep(n, maxSize, base, f, st, c, a);
      if a == Go {
        run', steps' := GoMoves(n, nclients, maxSize, run, steps, c, r);
      } else {
        run', steps' := ClientMoves(n, nclients, maxSize, run, steps, c, a);
      }
    case Work(s) =>
      var moved := WorkStep(n, maxSize, base, f, st, s);
      run', steps' := run, steps;
      if moved {
        OneMore(n, nclients, maxSize, run, steps, ServerMove(s), ServerStep(n, st, s));
        run', steps' := run + [ServerStep(n, st, s)], steps + [ServerMove(s)];
      }
  }

  lemma AdvanceRefines(n: nat, nclients: nat, maxSize: nat, base: nat, f: Fine, run: seq<State>, steps: seq<Step>,
                       step: FineStep)
      returns (run': seq<State>, steps': seq<Step>)
    requires Leads(n, nclients, maxSize, base, f, run, steps)
    ensures Leads(n, nclients, maxSize, base, Advance(n, maxSize, f, step), run', steps')
  {
    run', steps' := run, steps;
    if CanDo(n, maxSize, f, step) { run', steps' := StepRefines(n, nclients, maxSize, base, f, run, steps, step); }
  }

  lemma StartRel(n: nat, nclients: nat, maxSize: nat, base: nat)
    requires n > 0 && nclients > 0 && base < WRAP
    ensures Rel(n, base, WordSystem.Start(n, nclients, maxSize, base), System.Start(n, nclients, maxSize))
  {
    var f, st := WordSystem.Start(n, nclients, maxSize, base), System.Start(n, nclients, maxSize);
    BR.StartSimulates(base);
    forall c: nat | c < nclients ensures ThreadRel(n, base, st.clients[c], f.threads[c], f.wires[c]) {
      assert st.clients[c].boxes == Local(st.clients[c]).boxes;
      forall t: nat | t < n
        ensures BoxRel(base, st.clients[c].pc, st.clients[c].pending, st.clients[c].boxes[t], f.wires[c][t], t)
      {
        assert f.wires[c][t] == BR.Start(base);
      }
    }
  }

  /** Refinement: every run of the table at the granularity of single words is a run of
      System.  The threads of its last state are the clients of System as far as they are
      private, its workers the servers, and each wire simulates its box. */
  lemma {:induction false} WordsRefineSystem(n: nat, nclients: nat, maxSize: nat, base: nat, fine: seq<FineStep>)
      returns (run: seq<State>, steps: seq<Step>)
    requires n > 0 && nclients > 0 && base < WRAP
    ensures Leads(n, nclients, maxSize, base, After(n, nclients, maxSize, base, fine), run, steps)
  {
    if fine == [] {
      StartRel(n, nclients, maxSize, base);
      run, steps := [System.Start(n, nclients, maxSize)], [];
    } else {
      var init, step := fine[..|fine| - 1], fine[|fine| - 1];
      run, steps := WordsRefineSystem(n, nclients, maxSize, base, init);
      run, steps := AdvanceRefines(n, nclients, maxSize, base, After(n, nclients, maxSize, base, init), run, steps,
                                   step);
    }
  }
}
