/** The whole message-passing table at the granularity of single words: a step is one
    access to shared memory, and clients and servers go on by what they read there.
    Every box is a BoxRefinement.Wire. */
module WordSystem {
  import opened Basics
  import opened Elements
  import opened System
  import opened Flow
  import W = Words
  import BR = BoxRefinement
  import InputRing
  import OutputRing

  datatype Worker = Worker(part: Part, cursor: nat)

  /** A thread is what a client keeps to itself: a System.Client in whose boxes there is
      nothing but the values its caller holds. */
  datatype Fine = Fine(threads: seq<Client>, wires: seq<seq<BR.Wire>>, workers: seq<Worker>)

  datatype FineStep = Thread(c: nat, act: Act) | Work(s: nat)

  function Bare(b: Box): Box {
    EmptyBox().(held := b.held)
  }

  function Local(cl: Client): Client {
    cl.(boxes := seq(|cl.boxes|, i requires 0 <= i < |cl.boxes| => Bare(cl.boxes[i])))
  }

  /** What the caller makes of the word that answers its request. */
  function Heard(op: Op, word: nat): Answer {
    if word == 0 then Null
    else Ref(W.IdNamed(if word < HEADER then 0 else word - HEADER), if op.Insert? then Inserter else Reader)
  }

  function Touch(ws: seq<BR.Wire>, s: nat, step: BR.Step): seq<BR.Wire> {
    if s < |ws| && BR.Shape(ws[s]) then ws[s := BR.Next(ws[s], step)] else ws
  }

  // The accesses of a client.

  /** inpb_flush: nothing to do, its first test, or its loops up to the publishing store. */
  function FlushGo(th: Client, ws: seq<BR.Wire>, s: nat, done: Pc): (Client, seq<BR.Wire>) {
    if s >= |ws| then (th, ws)
    else if ws[s].input.writer.Ready? then
      if ws[s].input.local == [] then (th.(pc := done), ws) else (th, Touch(ws, s, BR.Flush))
    else (if ws[s].input.writer.Publish? then th.(pc := done) else th, Touch(ws, s, BR.WriterGo))
  }

  function Sent(th: Client, s: nat, op: Op, batch: bool): Client {
    if s < |th.boxes| == |th.credit| then Local(Append(th, s, op)).(pc := AfterPut(s, op, batch)) else th
  }

  /** inpb_write: the words fit, or it flushes first. */
  function PutGo(th: Client, ws: seq<BR.Wire>, s: nat, op: Op, batch: bool): (Client, seq<BR.Wire>) {
    if s < |ws| && BR.Shape(ws[s]) then
      var w := BR.Next(ws[s], BR.Write(op));
      (if w.input.writer.Ready? then Sent(th, s, op, batch) else th.(pc := PutFlush(s, op, batch)), ws[s := w])
    else (th, ws)
  }

  function PutFlushGo(th: Client, ws: seq<BR.Wire>, s: nat, op: Op, batch: bool): (Client, seq<BR.Wire>) {
    if s < |ws| then
      (if ws[s].input.writer.Publish? then Sent(th, s, op, batch) else th, Touch(ws, s, BR.WriterGo))
    else (th, ws)
  }

  predicate CanHear(th: Client) {
    && th.pending != [] && th.pending[0] < |th.boxes| == |th.credit| && th.credit[th.pending[0]] > 0
    && |th.got| < |Asked(th.cmds)|
  }

  /** The bookkeeping of read_next_pending_value for the word it read. */
  function Hear(th: Client, word: nat): Client
    requires CanHear(th)
  {
    var s := th.pending[0];
    th.(got := th.got + [(s, Heard(Asked(th.cmds)[|th.got|].1, word))], credit := th.credit[s := th.credit[s] - 1],
        pending := th.pending[1..])
  }

  function AfterHear(th: Client, word: nat): Client
    requires CanHear(th)
  {
    match th.pc
    case Read(task) => AfterTake(Hear(th, word), task)
    case ReadBlock(task) => AfterTake(Hear(th, word), task)
    case _ => Hear(th, word)
  }

  /** outb_read and outb_blocking_read. */
  function TakeGo(th: Client, ws: seq<BR.Wire>): (Client, seq<BR.Wire>) {
    if CanHear(th) && th.pending[0] < |ws| && BR.Shape(ws[th.pending[0]]) then
      var out := ws[th.pending[0]].output;
      (match out.reader
       case Out => th
       case Look =>
         if th.pc.Read? && out.localRd == out.wrIndex then th.(pc := ReadFlush(th.pc.task)) else th
       case Fetch => AfterHear(th, out.data[out.localRd % OUTB_SIZE]),
       Touch(ws, th.pending[0], BR.TakeGo))
    else (th, ws)
  }

  predicate ThreadShape(n: nat, th: Client) {
    n > 0 && n == |th.boxes| == |th.credit| && th.rd <= |th.got|
  }

  /** The next access inside an operation. */
  function ThreadGo(n: nat, th: Client, ws: seq<BR.Wire>): (Client, seq<BR.Wire>)
    requires ThreadShape(n, th)
  {
    match th.pc
    case Idle(_) => (th, ws)
    case Admit(_, _) => (Go1(n, th), ws)
    case Put(s, op, batch) => PutGo(th, ws, s, op, batch)
    case PutFlush(s, op, batch) => PutFlushGo(th, ws, s, op, batch)
    case Read(_) => TakeGo(th, ws)
    case ReadFlush(task) => if th.pending == [] then (th, ws) else FlushGo(th, ws, th.pending[0], ReadBlock(task))
    case ReadBlock(_) => TakeGo(th, ws)
    case ReadyFlush(s) => FlushGo(th, ws, s, Idle(false))
    case FlushAll(s) => if s == n then (th.(pc := Drain), ws) else FlushGo(th, ws, s, FlushAll(s + 1))
    case Drain => if th.pending == [] then (DeliverAll(th).(pc := Idle(false)), ws) else TakeGo(th, ws)
  }

  // The accesses of a server.

  /** hash_table_server at the box it has reached: inpb_read, the batch request by request,
      outb_write.  It goes on to the next box when the first word it tests is zero, and when
      it has pushed its answers. */
  function WorkerGo(nclients: nat, wk: Worker, w: BR.Wire): (Worker, BR.Wire)
    requires BR.Shape(w)
  {
    match w.server
    case Polling =>
      var w' := BR.Next(w, BR.ReadGo);
      (if w.input.reader.Test? && w'.input.reader.Out? then wk.(cursor := System.Next(wk.cursor, nclients)) else wk, w')
    case Serving(words, k, _) =>
      if k < |words| then
        var (p, a) := W.Case(wk.part, words[k], if k + 1 < |words| then words[k + 1] else 0);
        (wk.(part := p), BR.Next(w, BR.Serve(a)))
      else (wk, BR.Next(w, BR.Push))
    case Pushing =>
      (if w.output.writer.Bump? then wk.(cursor := System.Next(wk.cursor, nclients)) else wk, BR.Next(w, BR.PushGo))
  }

  // The system.

  function ThreadNext(n: nat, f: Fine, c: nat, act: Act): Fine
    requires c < |f.threads| == |f.wires| && ThreadShape(n, f.threads[c])
  {
    if act == Go then
      var (th, ws) := ThreadGo(n, f.threads[c], f.wires[c]);
      f.(threads := f.threads[c := th], wires := f.wires[c := ws])
    else f.(threads := f.threads[c := ClientStep(n, f.threads[c], act)])
  }

  function WorkNext(f: Fine, s: nat): Fine
    requires s < |f.workers| && f.workers[s].cursor < |f.wires|
    requires s < |f.wires[f.workers[s].cursor]| && BR.Shape(f.wires[f.workers[s].cursor][s])
  {
    var c := f.workers[s].cursor;
    var (wk, w) := WorkerGo(|f.threads|, f.workers[s], f.wires[c][s]);
    f.(workers := f.workers[s := wk], wires := f.wires[c := f.wires[c][s := w]])
  }

  function Next(n: nat, f: Fine, step: FineStep): Fine {
    match step
    case Thread(c, act) =>
      if c < |f.threads| == |f.wires| && ThreadShape(n, f.threads[c]) then ThreadNext(n, f, c, act) else f
    case Work(s) =>
      if s < |f.workers| && f.workers[s].cursor < |f.wires| && s < |f.wires[f.workers[s].cursor]|
         && BR.Shape(f.wires[f.workers[s].cursor][s]) then WorkNext(f, s) else f
  }

  predicate InRange(act: Act) {
    match act
    case Begin(op) => W.Encodable(op)
    case GiveBack(_, r) => W.Encodable(Release(r))
    case _ => true
  }

  /** Any thread may go on at any time; what a caller may begin is as in System, with keys,
      sizes and addresses in range. */
  predicate CanDo(n: nat, maxSize: nat, f: Fine, step: FineStep) {
    match step
    case Thread(c, act) =>
      c < |f.threads| && (act != Go ==> Enabled(n, maxSize, f.threads[c], act) && InRange(act))
    case Work(s) => s < n
  }

  function StartWires(base: nat, n: nat): seq<BR.Wire>
    requires base < WRAP
  {
    seq(n, _ => BR.Start(base))
  }

  function Start(n: nat, nclients: nat, maxSize: nat, base: nat): Fine
    requires base < WRAP
  {
    Fine(System.Start(n, nclients, maxSize).clients, seq(nclients, _ => StartWires(base, n)),
         seq(n, _ => Worker(Empty(maxSize), 0)))
  }

  /** A step that cannot be made leaves the state as it is. */
  function Advance(n: nat, maxSize: nat, f: Fine, step: FineStep): Fine {
    if CanDo(n, maxSize, f, step) then Next(n, f, step) else f
  }

  /** Any interleaving of accesses. */
  function After(n: nat, nclients: nat, maxSize: nat, base: nat, steps: seq<FineStep>): Fine
    requires base < WRAP
  {
    if steps == [] then Start(n, nclients, maxSize, base)
    else Advance(n, maxSize, After(n, nclients, maxSize, base, steps[..|steps| - 1]), steps[|steps| - 1])
  }
}
