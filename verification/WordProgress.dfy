/** No access of WordSystem is idle: each takes effect in System, or brings its thread or
    server nearer to the next that does, or is a test in a loop that has to wait.  So a run
    of single words cannot stand still where the run of System it refines could go on. */
module WordProgress {
  import opened Basics
  import opened Elements
  import opened System
  import opened WordSystem
  import opened WordRefinement
  import Flow
  import Control
  import Serial
  import BR = BoxRefinement
  import InputRing
  import OutputRing

  // Servers.

  /** Accesses until the next that takes effect, at most. */
  function WorkRest(w: BR.Wire): nat {
    match w.server
    case Polling =>
      (match w.input.reader
       case Out => 20
       case Test(buf) => if |buf| <= 8 then 19 - 2 * |buf| else 0
       case Fetch(buf) => if |buf| <= 8 then 18 - 2 * |buf| else 0
       case Clear(_) => 1)
    case Serving(_, _, answers) => |answers| + 3
    case Pushing =>
      match w.output.writer
      case Ready => 0
      case Copy(batch, i) => if i <= |batch| then |batch| - i + 2 else 2
      case Bump(_) => 1
  }

  lemma PollNearer(w: BR.Wire)
    requires BR.Shape(w) && InputRing.Inv(w.input) && w.server.Polling? && !Effect(w)
    ensures WorkRest(BR.Next(w, BR.ReadGo)) < WorkRest(w) <= 20
  {
    if w.input.reader.Test? && w.input.reader.buf != [] {
      assert InputRing.Reading(w.input, w.input.reader.buf);
      assert InputRing.Holds(w.input.data[|w.input.read| % INPB_COUNT], w.input.flushed[|w.input.read|]);
    } else if w.input.reader.Fetch? {
      assert InputRing.Holds(w.input.data[|w.input.read| % INPB_COUNT], w.input.flushed[|w.input.read|]);
    }
  }

  lemma PushNearer(w: BR.Wire, base: nat, cached: nat)
    requires BR.Shape(w) && OutputRing.Inv(w.output, base, cached) && w.server.Pushing? && w.output.writer.Copy?
    ensures WorkRest(BR.Next(w, BR.PushGo)) < WorkRest(w) <= OUTB_SIZE + 2
  {
  }

  lemma ServeNearer(w: BR.Wire)
    requires BR.Shape(w) && w.server.Serving? && !Effect(w)
    ensures WorkRest(BR.Next(w, BR.Push)) < WorkRest(w)
  {
  }

  lemma WorkerFacts(w: BR.Wire, base: nat, b: Box) returns (cached: nat)
    requires SimBox(w, base, b)
    ensures InputRing.Inv(w.input) && OutputRing.Inv(w.output, base, cached)
    ensures w.server.Pushing? ==> !w.output.writer.Ready?
    ensures w.server.Serving? ==> |w.server.answers| <= OUTB_SIZE
  {
    cached :| BR.Simulates(w, base, cached, b);
  }

  /** An access of a server that takes no effect brings the next that does nearer. */
  lemma WorkerNearer(nclients: nat, wk: Worker, w: BR.Wire, base: nat, b: Box)
    requires SimBox(w, base, b) && BR.Shape(w) && !Effect(w)
    ensures WorkRest(WorkerGo(nclients, wk, w).1) < WorkRest(w) <= OUTB_SIZE + 3
  {
    var cached := WorkerFacts(w, base, b);
    match w.server
    case Polling => PollNearer(w);
    case Serving(_, _, _) => ServeNearer(w);
    case Pushing => PushNearer(w, base, cached);
  }

  // Clients.

  /** The box whose input ring the client is flushing. */
  function FlushedBox(pc: Pc, pending: seq<nat>): Option<nat> {
    match pc
    case PutFlush(s, _, _) => Some(s)
    case ReadFlush(_) => if pending == [] then None else Some(pending[0])
    case ReadyFlush(s) => Some(s)
    case FlushAll(s) => Some(s)
    case _ => None
  }

  /** The box whose output ring it is reading. */
  function ReadBox(pc: Pc, pending: seq<nat>): Option<nat> {
    if (pc.Read? || pc.ReadBlock? || pc.Drain?) && pending != [] then Some(pending[0]) else None
  }

  function FlushRest(i: InputRing.State): nat {
    match i.writer
    case Ready => 13
    case Wait(_) => 12
    case Copy(k, _) => if k <= 8 then 11 - k else 3
    case End(_) => 2
    case Publish(_) => 1
  }

  function TakeRest(o: OutputRing.State): nat {
    match o.reader
    case Out => 3
    case Look => 2
    case Fetch => 1
  }

  /** Accesses until the thread itself goes on, unless it has to wait. */
  function ThreadRest(pc: Pc, pending: seq<nat>, ws: seq<BR.Wire>): nat {
    var s, t := FlushedBox(pc, pending), ReadBox(pc, pending);
    if s.Some? && s.value < |ws| then FlushRest(ws[s.value].input)
    else if t.Some? && t.value < |ws| then TakeRest(ws[t.value].output)
    else 0
  }

  /** The thread tests the first word of a slot that is not free, or the index of an output
      ring with nothing unread. */
  predicate Spins(pc: Pc, pending: seq<nat>, ws: seq<BR.Wire>) {
    match (FlushedBox(pc, pending), ReadBox(pc, pending))
    case (Some(s), _) => s < |ws| && FlushSpins(ws[s].input)
    case (None, Some(t)) => t < |ws| && !pc.Read? && TakeSpins(ws[t].output)
    case _ => false
  }

  predicate FlushSpins(i: InputRing.State) {
    InputRing.Shape(i) && i.writer.Wait? && i.data[i.dataWr][0] != 0
  }

  predicate TakeSpins(o: OutputRing.State) {
    o.reader.Look? && o.localRd == o.wrIndex
  }

  lemma FlushNearer(i: InputRing.State)
    requires InputRing.Inv(i) && !i.writer.Ready? && !i.writer.Publish?
    requires i.writer.Wait? ==> i.data[i.dataWr][0] == 0
    ensures FlushRest(InputRing.WriterStep(i)) < FlushRest(i) <= 13
  {
  }

  lemma TakeNearer(o: OutputRing.State)
    requires OutputRing.Shape(o) && !o.reader.Fetch? && (o.reader.Look? ==> o.localRd != o.wrIndex)
    ensures TakeRest(OutputRing.ReaderStep(o)) < TakeRest(o) <= 3
  {
  }

  lemma FreeSlotIsZero(i: InputRing.State)
    requires InputRing.Inv(i) && |i.flushed| < |i.read| + INPB_COUNT
    ensures i.data[i.dataWr][0] == 0
  {
    assert i.data[|i.flushed| % INPB_COUNT][0] == 0;
  }

  /** A slot that is not free belongs to a full ring. */
  lemma SlotIsFull(w: BR.Wire, base: nat, b: Box)
    requires SimBox(w, base, b) && FlushSpins(w.input)
    ensures |b.ring| == INPB_COUNT && b.local != []
  {
    var cached :| BR.Simulates(w, base, cached, b);
    LocalEmpty(w, base, b);
    if |w.input.flushed| < |w.input.read| + INPB_COUNT { FreeSlotIsZero(w.input); }
  }

  lemma NoFlush(n: nat, maxSize: nat, cl: Client, s: nat)
    requires FlushedBox(cl.pc, cl.pending) == Some(s) && s < |cl.boxes| == n
    requires |cl.boxes[s].ring| == INPB_COUNT && cl.boxes[s].local != []
    ensures !Enabled(n, maxSize, cl, Go)
  {
    assert !FlushReady(cl, s);
  }

  lemma NoTake(n: nat, maxSize: nat, cl: Client, t: nat)
    requires ReadBox(cl.pc, cl.pending) == Some(t) && !cl.pc.Read? && t < |cl.boxes| && cl.boxes[t].out == []
    ensures !Enabled(n, maxSize, cl, Go)
  {
    assert !CanTake(cl);
  }

  lemma FlushSpinsWaits(n: nat, maxSize: nat, base: nat, cl: Client, ws: seq<BR.Wire>, s: nat)
    requires BoxesRel(n, base, cl, ws) && s < n && FlushSpins(ws[s].input)
    requires FlushedBox(cl.pc, cl.pending) == Some(s)
    ensures !Enabled(n, maxSize, cl, Go)
  {
    At(n, base, cl, ws, s);
    SlotIsFull(ws[s], base, cl.boxes[s]);
    NoFlush(n, maxSize, cl, s);
  }

  lemma TakeSpinsWaits(n: nat, maxSize: nat, base: nat, cl: Client, ws: seq<BR.Wire>, t: nat)
    requires BoxesRel(n, base, cl, ws) && t < n && TakeSpins(ws[t].output)
    requires ReadBox(cl.pc, cl.pending) == Some(t) && !cl.pc.Read?
    ensures !Enabled(n, maxSize, cl, Go)
  {
    At(n, base, cl, ws, t);
    LookEmpty(ws[t], base, cl.boxes[t]);
    NoTake(n, maxSize, cl, t);
  }

  /** A thread that spins waits in System too. */
  lemma SpinsWaits(n: nat, maxSize: nat, base: nat, cl: Client, ws: seq<BR.Wire>)
    requires BoxesRel(n, base, cl, ws) && Spins(cl.pc, cl.pending, ws)
    ensures !Enabled(n, maxSize, cl, Go)
  {
    match (FlushedBox(cl.pc, cl.pending), ReadBox(cl.pc, cl.pending))
    case (Some(s), _) => FlushSpinsWaits(n, maxSize, base, cl, ws, s);
    case (None, Some(t)) => TakeSpinsWaits(n, maxSize, base, cl, ws, t);
  }

  // Every access.

  /** The access changes what the thread keeps to itself, or brings that nearer, or spins. */
  ghost predicate Counts(th: Client, ws: seq<BR.Wire>, th': Client, ws': seq<BR.Wire>) {
    th' != th || Spins(th.pc, th.pending, ws) || ThreadRest(th.pc, th.pending, ws') < ThreadRest(th.pc, th.pending, ws)
  }

  lemma FlushCounts(th: Client, ws: seq<BR.Wire>, s: nat, done: Pc)
    requires FlushedBox(th.pc, th.pending) == Some(s) && s < |ws| && BR.Shape(ws[s]) && done != th.pc
    requires InputRing.Inv(ws[s].input)
    ensures var (th', ws') := FlushGo(th, ws, s, done); Counts(th, ws, th', ws')
  {
    var i := ws[s].input;
    if !i.writer.Ready? && !i.writer.Publish? && !FlushSpins(i) { FlushNearer(i); }
  }

  lemma PutFlushCounts(th: Client, ws: seq<BR.Wire>)
    requires th.pc.PutFlush? && th.pc.s < |ws| && th.pc.s < |th.boxes| == |th.credit| && BR.Shape(ws[th.pc.s])
    requires InputRing.Inv(ws[th.pc.s].input) && !ws[th.pc.s].input.writer.Ready?
    ensures var (th', ws') := PutFlushGo(th, ws, th.pc.s, th.pc.op, th.pc.batch); Counts(th, ws, th', ws')
  {
    var i := ws[th.pc.s].input;
    if !i.writer.Publish? && !FlushSpins(i) { FlushNearer(i); }
  }

  lemma TakeCounts(th: Client, ws: seq<BR.Wire>)
    requires (th.pc.Read? || th.pc.ReadBlock? || th.pc.Drain?) && CanHear(th)
    requires th.pending[0] < |ws| && BR.Shape(ws[th.pending[0]])
    ensures var (th', ws') := TakeGo(th, ws); Counts(th, ws, th', ws')
  {
    var o := ws[th.pending[0]].output;
    if o.reader.Fetch? {
      HearsMore(th, o.data[o.localRd % OUTB_SIZE]);
    } else if !TakeSpins(o) {
      TakeNearer(o);
    }
  }

  lemma HearsMore(th: Client, word: nat)
    requires CanHear(th)
    ensures |AfterHear(th, word).got| == |th.got| + 1
  {
  }

  lemma WireInv(n: nat, base: nat, cl: Client, ws: seq<BR.Wire>, s: nat)
    requires BoxesRel(n, base, cl, ws) && s < n
    ensures BR.Shape(ws[s]) && InputRing.Inv(ws[s].input)
    ensures cl.pc.PutFlush? && cl.pc.s == s ==> !ws[s].input.writer.Ready?
  {
    At(n, base, cl, ws, s);
    var cached :| BR.Simulates(ws[s], base, cached, cl.boxes[s]);
  }

  lemma ThreadNearer(n: nat, maxSize: nat, base: nat, cl: Client, ws: seq<BR.Wire>)
    requires Control.ClientOk(n, maxSize, cl) && BoxesRel(n, base, cl, ws) && !cl.pc.Idle?
    ensures var (th', ws') := ThreadGo(n, Local(cl), ws); Counts(Local(cl), ws, th', ws')
  {
    if cl.pc.ReadFlush? || cl.pc.ReadyFlush? || (cl.pc.FlushAll? && cl.pc.s < n) {
      TargetInRange(n, maxSize, cl);
      GoFlushes(n, cl, ws);
      WireInv(n, base, cl, ws, FlushTarget(cl).0);
      FlushCounts(Local(cl), ws, FlushTarget(cl).0, FlushTarget(cl).1);
    } else if cl.pc.PutFlush? {
      WireInv(n, base, cl, ws, cl.pc.s);
      PutFlushCounts(Local(cl), ws);
    } else if cl.pc.Read? || cl.pc.ReadBlock? || (cl.pc.Drain? && cl.pending != []) {
      CanHearIt(n, cl);
      WireInv(n, base, cl, ws, cl.pending[0]);
      TakeCounts(Local(cl), ws);
    } else {
      OtherChanges(n, maxSize, base, cl, ws);
    }
  }

  lemma OtherChanges(n: nat, maxSize: nat, base: nat, cl: Client, ws: seq<BR.Wire>)
    requires Control.ClientOk(n, maxSize, cl) && BoxesRel(n, base, cl, ws)
    requires cl.pc.Admit? || cl.pc.Put? || cl.pc == FlushAll(n) || (cl.pc.Drain? && cl.pending == [])
    ensures ThreadGo(n, Local(cl), ws).0.pc != cl.pc
  {
    if cl.pc.Put? { WireInv(n, base, cl, ws, cl.pc.s); }
  }

  // In every run.

  /** From any state of any run of single words on: an access inside an operation changes
      what the thread keeps to itself, or brings the next such access nearer (it is at most
      13 away), or finds a slot taken or an output ring empty; and where a thread spins like
      that its client waits in System too. */
  lemma AccessesCount(n: nat, nclients: nat, maxSize: nat, base: nat, fine: seq<FineStep>, c: nat)
      returns (run: seq<State>, steps: seq<Step>)
    requires n > 0 && c < nclients && base < WRAP
    ensures var f := After(n, nclients, maxSize, base, fine);
            && Leads(n, nclients, maxSize, base, f, run, steps) && c < |f.threads| == |f.wires|
            && (!f.threads[c].pc.Idle? ==>
                  var g := WordSystem.Next(n, f, Thread(c, Go));
                  && |g.threads| == |g.wires| == |f.wires|
                  && Counts(f.threads[c], f.wires[c], g.threads[c], g.wires[c])
                  && ThreadRest(f.threads[c].pc, f.threads[c].pending, f.wires[c]) <= 13)
            && c < |run[|run| - 1].clients|
            && (Spins(f.threads[c].pc, f.threads[c].pending, f.wires[c]) ==>
                  !Enabled(n, maxSize, run[|run| - 1].clients[c], Go))
  {
    var f := After(n, nclients, maxSize, base, fine);
    run, steps := WordsRefineSystem(n, nclients, maxSize, base, fine);
    var st := run[|run| - 1];
    Control.RunOk(n, nclients, maxSize, run, steps, |run| - 1);
    Serial.ClientsStay(n, nclients, maxSize, run, steps, |run| - 1);
    ThreadCounts(n, maxSize, base, f, st, c);
  }

  lemma GoIs(n: nat, f: Fine, c: nat)
    requires c < |f.threads| == |f.wires| && ThreadShape(n, f.threads[c])
    ensures var g, (th, ws) := WordSystem.Next(n, f, Thread(c, Go)), ThreadGo(n, f.threads[c], f.wires[c]);
            |g.threads| == |g.wires| == |f.wires| && g.threads[c] == th && g.wires[c] == ws
    ensures ThreadRest(f.threads[c].pc, f.threads[c].pending, f.wires[c]) <= 13
  {
  }

  lemma ThreadCounts(n: nat, maxSize: nat, base: nat, f: Fine, st: State, c: nat)
    requires Control.SystemOk(n, maxSize, st) && Rel(n, base, f, st) && c < |st.clients|
    ensures c < |f.threads| == |f.wires|
    ensures !f.threads[c].pc.Idle? ==>
              var g := WordSystem.Next(n, f, Thread(c, Go));
              && |g.threads| == |g.wires| == |f.wires|
              && Counts(f.threads[c], f.wires[c], g.threads[c], g.wires[c])
              && ThreadRest(f.threads[c].pc, f.threads[c].pending, f.wires[c]) <= 13
    ensures Spins(f.threads[c].pc, f.threads[c].pending, f.wires[c]) ==> !Enabled(n, maxSize, st.clients[c], Go)
  {
    ClientAt(n, maxSize, base, f, st, c);
    var cl, ws := st.clients[c], f.wires[c];
    if !cl.pc.Idle? {
      ThreadNearer(n, maxSize, base, cl, ws);
      GoIs(n, f, c);
    }
    if Spins(cl.pc, cl.pending, ws) { SpinsWaits(n, maxSize, base, cl, ws); }
  }

  /** And an access of a server takes effect in System, which then makes its next step, or
      brings the next that does nearer, at most OUTB_SIZE + 3 away. */
  lemma ServersCount(n: nat, nclients: nat, maxSize: nat, base: nat, fine: seq<FineStep>, s: nat)
    requires n > 0 && nclients > 0 && base < WRAP && s < n
    ensures var f := After(n, nclients, maxSize, base, fine);
            && s < |f.workers| && f.workers[s].cursor < |f.wires| && s < |f.wires[f.workers[s].cursor]|
            && var w := f.wires[f.workers[s].cursor][s];
               && BR.Shape(w)
               && (!Effect(w) ==> WorkRest(WorkerGo(|f.threads|, f.workers[s], w).1) < WorkRest(w) <= OUTB_SIZE + 3)
  {
    var f := After(n, nclients, maxSize, base, fine);
    var run, steps := WordsRefineSystem(n, nclients, maxSize, base, fine);
    Control.RunOk(n, nclients, maxSize, run, steps, |run| - 1);
    WorkerCounts(n, maxSize, base, f, run[|run| - 1], s);
  }

  lemma WorkerCounts(n: nat, maxSize: nat, base: nat, f: Fine, st: State, s: nat)
    requires Control.SystemOk(n, maxSize, st) && Rel(n, base, f, st) && s < n
    ensures s < |f.workers| && f.workers[s].cursor < |f.wires| && s < |f.wires[f.workers[s].cursor]|
    ensures var w := f.wires[f.workers[s].cursor][s];
            && BR.Shape(w)
            && (!Effect(w) ==> WorkRest(WorkerGo(|f.threads|, f.workers[s], w).1) < WorkRest(w) <= OUTB_SIZE + 3)
  {
    var c := st.servers[s].cursor;
    BoxOfWorker(n, maxSize, base, f, st, s);
    ClientAt(n, maxSize, base, f, st, c);
    At(n, base, st.clients[c], f.wires[c], s);
    var w := f.wires[c][s];
    if !Effect(w) { WorkerNearer(|f.threads|, f.workers[s], w, base, st.clients[c].boxes[s]); }
  }
}
