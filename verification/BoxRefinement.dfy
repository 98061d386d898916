/** One box between a client and a server, word by word: both rings, the server's local
    buffer, and the client's credit.  Every step is a step of System's Box, or none, so
    what System proves of boxes holds for the rings as the code has them; and the pushes,
    which nothing checks, always fit. */
module BoxRefinement {
  import opened Basics
  import opened Elements
  import opened System
  import opened Flow
  import opened Words
  import Routes
  import Control
  import InputRing
  import OutputRing

  /** What the server is doing with this box. */
  datatype Server =
    | Polling                                                   // in inpb_read, or at another box
    | Serving(words: seq<nat>, k: nat, answers: seq<nat>)       // in the loop over the batch
    | Pushing                                                   // in outb_write

  /** `want` is the request whose inpb_write waits for a flush. */
  datatype Wire = Wire(input: InputRing.State, output: OutputRing.State, server: Server, credit: nat, want: Option<Op>)

  datatype Step =
    | Write(op: Op) | Flush | WriterGo      // the client's side of the input ring
    | ReadGo                                // the server's
    | Serve(answer: Option<Answer>)         // one request of the batch
    | Push | PushGo                         // the server's side of the output ring
    | TakeGo                                // the client's

  function Start(base: nat): Wire
    requires base < WRAP
  {
    Wire(InputRing.Start(), OutputRing.Start(base), Polling, 0, None)
  }

  function Cost(op: Op): nat {
    if op.Release? then 0 else 1
  }

  predicate Shape(w: Wire) {
    InputRing.Shape(w.input) && OutputRing.Shape(w.output)
  }

  /** The client writes a query only when it has a credit left; the answer to a request
      is a reply word exactly when the request is a query. */
  ghost predicate CanDo(w: Wire, step: Step) {
    && Shape(w)
    && match step
       case Write(op) => w.input.writer.Ready? && Encodable(op) && (!op.Release? ==> w.credit < MAX_PENDING_PER_SERVER)
       case Flush => w.input.writer.Ready?
       case WriterGo => true
       case ReadGo => w.server.Polling?
       case Serve(a) =>
         w.server.Serving? && w.server.k < |w.server.words|
         && (a.None? <==> OpOf(w.server.words[w.server.k]) == RELEASE)
       case Push => w.server.Serving? && w.server.k >= |w.server.words|
       case PushGo => w.server.Pushing?
       case TakeGo => true
  }

  function Next(w: Wire, step: Step): Wire
    requires Shape(w)
  {
    match step
    case Write(op) =>
      var i := InputRing.Apply(w.input, InputRing.Write(Encode(op)));
      if i.writer.Ready? then w.(input := i, credit := w.credit + Cost(op)) else w.(input := i, want := Some(op))
    case Flush => w.(input := InputRing.Apply(w.input, InputRing.Flush))
    case WriterGo =>
      var i := InputRing.WriterStep(w.input);
      if w.input.writer.Publish? && w.want.Some? then
        w.(input := i, want := None, credit := w.credit + Cost(w.want.value))
      else w.(input := i)
    case ReadGo =>
      var i := InputRing.ReaderStep(w.input);
      if w.input.reader.Clear? then w.(input := i, server := Serving(w.input.reader.buf, 0, [])) else w.(input := i)
    case Serve(a) =>
      (match w.server
       case Serving(words, k, answers) =>
         if k < |words| then
           w.(server := Serving(words, k + (if OpOf(words[k]) == INSERT then INSERT_MSG_LENGTH else 1),
                                if a.Some? then answers + [ReplyWord(a.value)] else answers))
         else w
       case _ => w)
    case Push =>
      (match w.server
       case Serving(_, _, answers) => w.(server := Pushing, output := w.output.(writer := OutputRing.Copy(answers, 0)))
       case _ => w)
    case PushGo =>
      w.(output := OutputRing.WriterStep(w.output), server := if w.output.writer.Bump? then Polling else w.server)
    case TakeGo =>
      w.(output := OutputRing.ReaderStep(w.output),
         credit := if w.output.reader.Fetch? && w.credit > 0 then w.credit - 1 else w.credit)
  }

  // The simulation relation.

  function ReplyWords(xs: seq<Answer>): seq<nat> {
    seq(|xs|, i requires 0 <= i < |xs| => ReplyWord(xs[i]))
  }

  ghost predicate Encodes(words: seq<nat>, ops: seq<Op>) {
    AllEncodable(ops) && words == EncodeAll(ops)
  }

  function After(writer: InputRing.WriterPc): Option<InputRing.Batch> {
    match writer
    case Ready => None
    case Wait(after) => Some(after)
    case Copy(_, after) => Some(after)
    case End(after) => Some(after)
    case Publish(after) => Some(after)
  }

  ghost predicate WantOk(writer: InputRing.WriterPc, want: Option<Op>) {
    match want
    case None => After(writer) == None || After(writer) == Some([])
    case Some(op) => Encodable(op) && After(writer) == Some(Encode(op))
  }

  ghost predicate QueueEncodes(queue: seq<InputRing.Batch>, ring: seq<seq<Op>>) {
    |queue| == |ring| && forall k :: 0 <= k < |ring| ==> Encodes(queue[k], ring[k])
  }

  ghost predicate InputOk(i: InputRing.State, want: Option<Op>, b: Box) {
    && InputRing.Inv(i) && WantOk(i.writer, want)
    && Encodes(i.local, b.local) && QueueEncodes(InputRing.Queue(i), b.ring)
  }

  ghost predicate ServerOk(s: Server, b: Box) {
    match s
    case Polling => b.hand == [] && b.replies == []
    case Serving(words, k, answers) => k <= |words| && Encodes(words[k..], b.hand) && answers == ReplyWords(b.replies)
    case Pushing => b.hand == []
  }

  ghost predicate OutputOk(o: OutputRing.State, base: nat, cached: nat, s: Server, b: Box) {
    && OutputRing.Inv(o, base, cached)
    && o.pushed[|o.got|..] == ReplyWords(b.out)
    && (match o.writer
        case Ready => !s.Pushing?
        case Copy(batch, _) => s.Pushing? && batch == ReplyWords(b.replies)
        case Bump(batch) => s.Pushing? && batch == ReplyWords(b.replies))
  }

  ghost predicate CreditOk(credit: nat, b: Box) {
    credit == Control.Outstanding(b) <= MAX_PENDING_PER_SERVER
  }

  ghost predicate Simulates(w: Wire, base: nat, cached: nat, b: Box) {
    && InputOk(w.input, w.want, b) && ServerOk(w.server, b) && OutputOk(w.output, base, cached, w.server, b)
    && CreditOk(w.credit, b)
    && (w.want.Some? && !w.want.value.Release? ==> w.credit < MAX_PENDING_PER_SERVER)
  }

  /** What System lets happen to a box in one step, as far as the rings go. */
  ghost predicate BoxStep(b: Box, r: Box) {
    || r == b
    || (b.local != [] && |b.ring| < INPB_COUNT && r == b.(ring := b.ring + [b.local], local := []))
    || (exists op :: WordsOf(b.local) + System.Words(op) <= INPB_SIZE && r == b.(local := b.local + [op]))
    || (b.ring != [] && b.hand == [] && b.replies == [] && r == Poll(b))
    || (b.hand != [] && exists a: Option<Answer> :: (a.None? <==> b.hand[0].Release?) && r == System.Serve(b, a))
    || (b.hand == [] && r == System.Push(b))
    || (b.out != [] && r == b.(out := b.out[1..]))
  }

  /** The box after a step of the wire. */
  function BoxAfter(w: Wire, step: Step, b: Box): Box
    requires Shape(w)
  {
    match step
    case Write(op) =>
      if InputRing.Apply(w.input, InputRing.Write(Encode(op))).writer.Ready? then b.(local := b.local + [op]) else b
    case WriterGo =>
      if w.input.writer.Publish? then
        b.(ring := b.ring + [b.local], local := if w.want.Some? then [w.want.value] else [])
      else b
    case ReadGo => if w.input.reader.Clear? && b.ring != [] then Poll(b) else b
    case Serve(a) => if b.hand != [] then System.Serve(b, a) else b
    case PushGo => if w.output.writer.Bump? then System.Push(b) else b
    case TakeGo => if w.output.reader.Fetch? && b.out != [] then b.(out := b.out[1..]) else b
    case _ => b
  }

  /** What the rings look like from inside at the moments that matter. */
  ghost predicate Moment(w: Wire, step: Step, b: Box)
    requires Shape(w)
  {
    match step
    case Write(op) =>
      InputRing.Apply(w.input, InputRing.Write(Encode(op))).writer.Ready?
      <==> WordsOf(b.local) + System.Words(op) <= INPB_SIZE
    case WriterGo => w.input.writer.Publish? ==> b.local != [] && |b.ring| < INPB_COUNT
    case ReadGo => w.input.reader.Clear? ==> b.ring != [] && b.hand == [] && b.replies == []
    case Serve(a) => b.hand != [] && (a.None? <==> b.hand[0].Release?)
    case Push => b.hand == []
    case PushGo => b.hand == []
    case TakeGo => w.output.reader.Fetch? ==> b.out != []
    case _ => true
  }

  // The credit counts what is outstanding.

  lemma AppendCost(b: Box, op: Op)
    ensures Control.Outstanding(b.(local := b.local + [op])) == Control.Outstanding(b) + Cost(op)
  {
    assert (b.local + [op])[..|b.local|] == b.local;
  }

  lemma PublishCost(b: Box)
    ensures Control.Outstanding(b.(ring := b.ring + [b.local], local := [])) == Control.Outstanding(b)
  {
    Routes.FlatSnoc(b.ring, b.local);
    Control.QueriesConcat(Routes.Flat(b.ring), b.local);
  }

  lemma PollCost(b: Box)
    requires b.ring != [] && b.hand == []
    ensures Control.Outstanding(Poll(b)) == Control.Outstanding(b)
  {
    Routes.FlatHead(b.ring);
    Control.QueriesConcat(b.ring[0], Routes.Flat(b.ring[1..]));
  }

  lemma ServeCost(b: Box, a: Option<Answer>)
    requires b.hand != [] && (a.None? <==> b.hand[0].Release?)
    ensures Control.Outstanding(System.Serve(b, a)) == Control.Outstanding(b)
  {
    var op := b.hand[0];
    assert b.hand == [op] + b.hand[1..];
    Control.QueriesConcat([op], b.hand[1..]);
    assert [op][..0] == [];
    assert |Queries([op])| == Cost(op);
  }

  // The client's side of the input ring.

  lemma EncodesSnoc(words: seq<nat>, ops: seq<Op>, op: Op)
    requires Encodes(words, ops) && Encodable(op)
    ensures Encodes(words + Encode(op), ops + [op])
  {
    EncodeSnoc(ops, op);
  }

  lemma EncodedLength(words: seq<nat>, ops: seq<Op>)
    requires Encodes(words, ops)
    ensures |words| == WordsOf(ops) && InputRing.Nonzero(words)
  {
    BatchFitsSlot(ops);
  }

  lemma EncodedOp(op: Op)
    requires Encodable(op)
    ensures |Encode(op)| == System.Words(op) && 1 <= |Encode(op)| <= 2 && InputRing.Nonzero(Encode(op))
  {
    DecodeEncode(op, []);
  }

  /** Steps that neither publish nor take leave the queue alone. */
  lemma QueueSame(i: InputRing.State, r: InputRing.State)
    requires r.flushed == i.flushed && r.read == i.read
    ensures InputRing.Queue(r) == InputRing.Queue(i)
  {
  }

  lemma WriteOk(i: InputRing.State, b: Box, op: Op) returns (r: Box)
    requires InputOk(i, None, b) && i.writer.Ready? && Encodable(op)
    ensures var j := InputRing.Apply(i, InputRing.Write(Encode(op)));
            && InputOk(j, if j.writer.Ready? then None else Some(op), r)
            && (j.writer.Ready? <==> WordsOf(b.local) + System.Words(op) <= INPB_SIZE)
            && r == (if j.writer.Ready? then b.(local := b.local + [op]) else b)
  {
    var step := InputRing.Write(Encode(op));
    var j := InputRing.Apply(i, step);
    EncodedOp(op);
    EncodedLength(i.local, b.local);
    assert InputRing.Legal([step]);
    InputRing.ApplyOk(i, step);
    QueueSame(i, j);
    if j.writer.Ready? {
      EncodesSnoc(i.local, b.local, op);
      r := b.(local := b.local + [op]);
    } else {
      r := b;
    }
  }

  lemma FlushOk(i: InputRing.State, b: Box)
    requires InputOk(i, None, b) && i.writer.Ready?
    ensures InputOk(InputRing.Apply(i, InputRing.Flush), None, b)
  {
    assert InputRing.Legal([InputRing.Flush]);
    InputRing.ApplyOk(i, InputRing.Flush);
    QueueSame(i, InputRing.Apply(i, InputRing.Flush));
  }

  lemma CopyStepOk(i: InputRing.State, want: Option<Op>, b: Box)
    requires InputOk(i, want, b) && !i.writer.Publish?
    ensures InputOk(InputRing.WriterStep(i), want, b)
  {
    BothInv(i);
    CopyStepKeeps(i);
    QueueSame(i, InputRing.WriterStep(i));
  }

  lemma CopyStepKeeps(i: InputRing.State)
    requires InputRing.Shape(i) && !i.writer.Publish?
    ensures var j := InputRing.WriterStep(i);
            j.flushed == i.flushed && j.read == i.read && j.local == i.local && After(j.writer) == After(i.writer)
  {
  }

  lemma QueuePublished(i: InputRing.State)
    requires InputRing.Inv(i) && i.writer.Publish?
    ensures var j := InputRing.WriterStep(i);
            && InputRing.Queue(j) == InputRing.Queue(i) + [i.local] && j.local == i.writer.after && j.writer.Ready?
            && i.local != [] && |InputRing.Queue(i)| < INPB_COUNT
  {
  }

  lemma QueueEnds(queue: seq<InputRing.Batch>, ring: seq<seq<Op>>, words: InputRing.Batch, ops: seq<Op>)
    requires QueueEncodes(queue, ring) && Encodes(words, ops)
    ensures QueueEncodes(queue + [words], ring + [ops])
    ensures queue != [] ==> ring != [] && Encodes(queue[0], ring[0]) && QueueEncodes(queue[1..], ring[1..])
  {
  }

  lemma BothInv(i: InputRing.State)
    requires InputRing.Inv(i)
    ensures InputRing.Inv(InputRing.WriterStep(i)) && InputRing.Inv(InputRing.ReaderStep(i))
  {
    assert InputRing.Legal([InputRing.WriterGo]) && InputRing.Legal([InputRing.ReaderGo]);
    InputRing.ApplyOk(i, InputRing.WriterGo);
    InputRing.ApplyOk(i, InputRing.ReaderGo);
  }

  /** Publishing, and then the request that waited for the flush. */
  lemma PublishOk(i: InputRing.State, want: Option<Op>, b: Box) returns (mid: Box, r: Box)
    requires InputOk(i, want, b) && i.writer.Publish?
    ensures InputOk(InputRing.WriterStep(i), None, r)
    ensures b.local != [] && |b.ring| < INPB_COUNT && mid == b.(ring := b.ring + [b.local], local := [])
    ensures match want
            case None => r == mid
            case Some(op) => System.Words(op) <= INPB_SIZE && r == mid.(local := [op])
  {
    BothInv(i);
    QueuePublished(i);
    QueueEnds(InputRing.Queue(i), b.ring, i.local, b.local);
    mid := b.(ring := b.ring + [b.local], local := []);
    match want
    case None => r := mid;
    case Some(op) =>
      EncodesSnoc([], [], op);
      assert [] + [op] == [op] && [] + Encode(op) == Encode(op);
      r := mid.(local := [op]);
  }

  // The server's side of the input ring, and its loop over a batch.

  lemma ReadStepOk(i: InputRing.State, want: Option<Op>, b: Box)
    requires InputOk(i, want, b) && !i.reader.Clear?
    ensures InputOk(InputRing.ReaderStep(i), want, b)
  {
    BothInv(i);
    QueueSame(i, InputRing.ReaderStep(i));
  }

  lemma QueueTaken(i: InputRing.State)
    requires InputRing.Inv(i) && i.reader.Clear?
    ensures var j := InputRing.ReaderStep(i);
            && InputRing.Queue(i) != [] && InputRing.Queue(i)[0] == i.reader.buf
            && InputRing.Queue(j) == InputRing.Queue(i)[1..] && j.local == i.local && j.writer == i.writer
  {
  }

  lemma TakeBatchOk(i: InputRing.State, want: Option<Op>, b: Box)
    requires InputOk(i, want, b) && i.reader.Clear? && ServerOk(Polling, b)
    ensures b.ring != [] && InputOk(InputRing.ReaderStep(i), want, Poll(b))
    ensures ServerOk(Serving(i.reader.buf, 0, []), Poll(b))
  {
    BothInv(i);
    QueueTaken(i);
    QueueEnds(InputRing.Queue(i), b.ring, i.local, b.local);
    assert i.reader.buf[0..] == i.reader.buf;
    assert ReplyWords([]) == [];
  }

  lemma FirstEncoded(words: seq<nat>, k: nat, ops: seq<Op>)
    requires k <= |words| && Encodes(words[k..], ops) && k < |words|
    ensures ops != [] && Encodable(ops[0]) && words[k..] == Encode(ops[0]) + EncodeAll(ops[1..])
    ensures OpOf(words[k]) == RELEASE <==> ops[0].Release?
    ensures OpOf(words[k]) == INSERT <==> ops[0].Insert?
  {
    assert ops != [];
    DecodeEncode(ops[0], EncodeAll(ops[1..]));
    assert words[k..][0] == words[k];
  }

  lemma RestEncoded(words: seq<nat>, k: nat, ops: seq<Op>)
    requires k < |words| && Encodes(words[k..], ops) && ops != [] && words[k..] == Encode(ops[0]) + EncodeAll(ops[1..])
    ensures var step := |Encode(ops[0])|; k + step <= |words| && Encodes(words[k + step..], ops[1..])
  {
    var step := |Encode(ops[0])|;
    assert words[k..][step..] == words[k + step..];
    assert (Encode(ops[0]) + EncodeAll(ops[1..]))[step..] == EncodeAll(ops[1..]);
  }

  lemma ReplySnoc(xs: seq<Answer>, a: Answer)
    ensures ReplyWords(xs + [a]) == ReplyWords(xs) + [ReplyWord(a)]
  {
  }

  lemma ServeStepOk(words: seq<nat>, k: nat, answers: seq<nat>, b: Box, a: Option<Answer>)
    requires ServerOk(Serving(words, k, answers), b) && k < |words| && (a.None? <==> OpOf(words[k]) == RELEASE)
    ensures b.hand != [] && (a.None? <==> b.hand[0].Release?)
    ensures var step := if OpOf(words[k]) == INSERT then INSERT_MSG_LENGTH else 1;
            ServerOk(Serving(words, k + step, if a.Some? then answers + [ReplyWord(a.value)] else answers),
                     System.Serve(b, a))
  {
    FirstEncoded(words, k, b.hand);
    RestEncoded(words, k, b.hand);
    EncodedOp(b.hand[0]);
    if a.Some? { ReplySnoc(b.replies, a.value); } else { assert b.replies + [] == b.replies; }
  }

  lemma BatchDone(words: seq<nat>, k: nat, answers: seq<nat>, b: Box)
    requires ServerOk(Serving(words, k, answers), b) && k >= |words|
    ensures b.hand == []
  {
    assert words[k..] == [];
    if b.hand != [] { EncodedOp(b.hand[0]); }
  }

  // The output ring.

  /** The push is the guarded one of OutputRing: it fits, though nothing checks that. */
  lemma PushFits(o: OutputRing.State, base: nat, cached: nat, s: Server, b: Box)
    requires OutputOk(o, base, cached, s, b) && !s.Pushing? && Control.Outstanding(b) <= MAX_PENDING_PER_SERVER
    ensures OutputRing.Apply(o, OutputRing.Push(ReplyWords(b.replies)))
            == o.(writer := OutputRing.Copy(ReplyWords(b.replies), 0))
    ensures OutputRing.Unread(o) + |b.replies| <= MAX_PENDING_PER_SERVER
    ensures OutputOk(o.(writer := OutputRing.Copy(ReplyWords(b.replies), 0)), base, cached, Pushing, b)
  {
    assert |o.pushed[|o.got|..]| == |b.out|;
    var c := OutputRing.ApplyOk(o, base, cached, OutputRing.Push(ReplyWords(b.replies)));
    assert o.pushed + ReplyWords(b.replies)[..0] == o.pushed;
  }

  lemma PushStepOk(o: OutputRing.State, base: nat, cached: nat, b: Box)
    requires OutputOk(o, base, cached, Pushing, b)
    ensures if o.writer.Bump? then OutputOk(OutputRing.WriterStep(o), base, cached, Polling, System.Push(b))
            else OutputOk(OutputRing.WriterStep(o), base, cached, Pushing, b)
  {
    if o.writer.Bump? {
      OutputRing.BumpOk(o, base, cached);
      Appended(o.pushed, o.writer.batch, |o.got|);
      assert ReplyWords(b.out + b.replies) == ReplyWords(b.out) + ReplyWords(b.replies);
    } else {
      OutputRing.CopyOk(o, base, cached);
    }
  }

  lemma Appended(s: seq<nat>, t: seq<nat>, k: nat)
    requires k <= |s|
    ensures (s + t)[k..] == s[k..] + t
  {
  }

  lemma TakeStepOk(o: OutputRing.State, base: nat, cached: nat, s: Server, b: Box) returns (cached': nat)
    requires OutputOk(o, base, cached, s, b)
    ensures o.reader.Fetch? ==> b.out != [] && OutputRing.ReaderStep(o).got == o.got + [ReplyWord(b.out[0])]
    ensures OutputOk(OutputRing.ReaderStep(o), base, cached', s, if o.reader.Fetch? then b.(out := b.out[1..]) else b)
  {
    var r := OutputRing.ReaderStep(o);
    cached' := OutputRing.ReadOk(o, base, cached);
    if o.reader.Fetch? {
      OutputRing.FetchOk(o, base, cached);
      assert o.pushed[|o.got|..][0] == o.pushed[|o.got|];
      assert o.pushed[|o.got|..][1..] == o.pushed[|o.got| + 1..];
      assert ReplyWords(b.out)[1..] == ReplyWords(b.out[1..]);
    }
  }

  // Every step.

  lemma WriteNext(w: Wire, op: Op)
    requires CanDo(w, Write(op))
    ensures var r, j := Next(w, Write(op)), InputRing.Apply(w.input, InputRing.Write(Encode(op)));
            r == w.(input := j, credit := if j.writer.Ready? then w.credit + Cost(op) else w.credit,
                    want := if j.writer.Ready? then w.want else Some(op))
  {
  }

  lemma NoWant(writer: InputRing.WriterPc, want: Option<Op>)
    requires WantOk(writer, want) && writer.Ready?
    ensures want == None
  {
  }

  lemma SimulateWrite(w: Wire, base: nat, cached: nat, b: Box, op: Op) returns (r: Box)
    requires Simulates(w, base, cached, b) && CanDo(w, Write(op))
    ensures BoxStep(b, r) && Simulates(Next(w, Write(op)), base, cached, r)
    ensures r == BoxAfter(w, Write(op), b) && Moment(w, Write(op), b)
  {
    NoWant(w.input.writer, w.want);
    r := WriteOk(w.input, b, op);
    WriteNext(w, op);
    AppendCost(b, op);
  }

  lemma SimulateWriter(w: Wire, base: nat, cached: nat, b: Box) returns (mid: Box, r: Box)
    requires Simulates(w, base, cached, b) && CanDo(w, WriterGo)
    ensures BoxStep(b, mid) && BoxStep(mid, r) && Simulates(Next(w, WriterGo), base, cached, r)
    ensures r == BoxAfter(w, WriterGo, b) && Moment(w, WriterGo, b)
  {
    if w.input.writer.Publish? {
      mid, r := PublishOk(w.input, w.want, b);
      PublishCost(b);
      if w.want.Some? {
        AppendCost(mid, w.want.value);
        assert mid.local + [w.want.value] == [w.want.value];
      }
    } else {
      CopyStepOk(w.input, w.want, b);
      mid, r := b, b;
    }
  }

  lemma SimulateRead(w: Wire, base: nat, cached: nat, b: Box) returns (r: Box)
    requires Simulates(w, base, cached, b) && CanDo(w, ReadGo)
    ensures BoxStep(b, r) && Simulates(Next(w, ReadGo), base, cached, r)
    ensures r == BoxAfter(w, ReadGo, b) && Moment(w, ReadGo, b)
  {
    if w.input.reader.Clear? {
      TakeBatchOk(w.input, w.want, b);
      PollCost(b);
      r := Poll(b);
    } else {
      ReadStepOk(w.input, w.want, b);
      r := b;
    }
  }

  lemma SimulateServe(w: Wire, base: nat, cached: nat, b: Box, a: Option<Answer>) returns (r: Box)
    requires Simulates(w, base, cached, b) && CanDo(w, Serve(a))
    ensures BoxStep(b, r) && Simulates(Next(w, Serve(a)), base, cached, r)
    ensures r == BoxAfter(w, Serve(a), b) && Moment(w, Serve(a), b)
  {
    ServeStepOk(w.server.words, w.server.k, w.server.answers, b, a);
    ServeCost(b, a);
    r := System.Serve(b, a);
  }

  lemma SimulatePush(w: Wire, base: nat, cached: nat, b: Box)
    requires Simulates(w, base, cached, b) && CanDo(w, Push)
    ensures Simulates(Next(w, Push), base, cached, b)
    ensures Moment(w, Push, b)
  {
    BatchDone(w.server.words, w.server.k, w.server.answers, b);
    PushFits(w.output, base, cached, w.server, b);
  }

  lemma SimulatePushGo(w: Wire, base: nat, cached: nat, b: Box) returns (r: Box)
    requires Simulates(w, base, cached, b) && CanDo(w, PushGo)
    ensures BoxStep(b, r) && Simulates(Next(w, PushGo), base, cached, r)
    ensures r == BoxAfter(w, PushGo, b) && Moment(w, PushGo, b)
  {
    PushStepOk(w.output, base, cached, b);
    r := if w.output.writer.Bump? then System.Push(b) else b;
  }

  lemma SimulateTake(w: Wire, base: nat, cached: nat, b: Box) returns (cached': nat, r: Box)
    requires Simulates(w, base, cached, b) && CanDo(w, TakeGo)
    ensures BoxStep(b, r) && Simulates(Next(w, TakeGo), base, cached', r)
    ensures r == BoxAfter(w, TakeGo, b) && Moment(w, TakeGo, b)
  {
    cached' := TakeStepOk(w.output, base, cached, w.server, b);
    r := if w.output.reader.Fetch? then b.(out := b.out[1..]) else b;
  }

  /** Simulation: each step at the granularity of single words is none, one or two steps of
      the box. */
  lemma StepSimulates(w: Wire, base: nat, cached: nat, b: Box, step: Step) returns (cached': nat, mid: Box, r: Box)
    requires Simulates(w, base, cached, b) && CanDo(w, step)
    ensures BoxStep(b, mid) && BoxStep(mid, r) && Simulates(Next(w, step), base, cached', r)
    ensures r == BoxAfter(w, step, b) && Moment(w, step, b)
  {
    cached', mid := cached, b;
    match step
    case Write(op) => r := SimulateWrite(w, base, cached, b, op);
    case Flush =>
      FlushOk(w.input, b);
      r := b;
    case WriterGo => mid, r := SimulateWriter(w, base, cached, b);
    case ReadGo => r := SimulateRead(w, base, cached, b);
    case Serve(a) => r := SimulateServe(w, base, cached, b, a);
    case Push =>
      SimulatePush(w, base, cached, b);
      r := b;
    case PushGo => r := SimulatePushGo(w, base, cached, b);
    case TakeGo => cached', r := SimulateTake(w, base, cached, b);
  }

  // Every interleaving.

  ghost function Run(base: nat, steps: seq<Step>): (w: Wire)
    requires base < WRAP
    ensures Shape(w)
  {
    if steps == [] then Start(base)
    else
      var w := Run(base, steps[..|steps| - 1]);
      NextShape(w, steps[|steps| - 1]);
      if CanDo(w, steps[|steps| - 1]) then Next(w, steps[|steps| - 1]) else w
  }

  lemma InputShape(i: InputRing.State, step: InputRing.Step)
    requires InputRing.Shape(i)
    ensures InputRing.Shape(InputRing.Apply(i, step))
  {
  }

  lemma OutputShape(o: OutputRing.State)
    requires OutputRing.Shape(o)
    ensures OutputRing.Shape(OutputRing.WriterStep(o)) && OutputRing.Shape(OutputRing.ReaderStep(o))
  {
  }

  lemma NextShape(w: Wire, step: Step)
    requires Shape(w)
    ensures Shape(Next(w, step))
  {
    OutputShape(w.output);
    match step
    case Write(op) => InputShape(w.input, InputRing.Write(Encode(op)));
    case Flush => InputShape(w.input, InputRing.Flush);
    case WriterGo => InputShape(w.input, InputRing.WriterGo);
    case ReadGo => InputShape(w.input, InputRing.ReaderGo);
    case _ =>
  }

  lemma StartSimulates(base: nat)
    requires base < WRAP
    ensures Simulates(Start(base), base, 0, EmptyBox())
  {
    InputRing.RunOk([]);
    var c := OutputRing.RunOk(base, []);
    assert ReplyWords([]) == [] && Routes.Flat<Op>([]) == [];
  }

  lemma {:induction false} RunSimulates(base: nat, steps: seq<Step>) returns (cached: nat, b: Box)
    requires base < WRAP
    ensures Simulates(Run(base, steps), base, cached, b)
  {
    if steps == [] {
      StartSimulates(base);
      cached, b := 0, EmptyBox();
    } else {
      var init, step := steps[..|steps| - 1], steps[|steps| - 1];
      cached, b := RunSimulates(base, init);
      if CanDo(Run(base, init), step) {
        var mid;
        cached, mid, b := StepSimulates(Run(base, init), base, cached, b, step);
      }
    }
  }

  function BeingPushed(o: OutputRing.State): nat {
    match o.writer
    case Ready => 0
    case Copy(batch, _) => |batch|
    case Bump(batch) => |batch|
  }

  /** In every interleaving, wherever the 64-bit counters start: the client reads the words
      pushed, in order, and the batches read are those flushed, in order; and although the
      server never looks for room, the words unread and the words being pushed together
      are at most MAX_PENDING_PER_SERVER, so none is overwritten. */
  lemma NeverOverwrites(base: nat, steps: seq<Step>)
    requires base < WRAP
    ensures var w := Run(base, steps);
            && w.output.got <= w.output.pushed && w.input.read <= w.input.flushed
            && |w.output.pushed| - |w.output.got| + BeingPushed(w.output) <= MAX_PENDING_PER_SERVER
            && |w.output.pushed| - |w.output.got| <= w.credit <= MAX_PENDING_PER_SERVER
  {
    var cached, b := RunSimulates(base, steps);
    var w := Run(base, steps);
    assert |w.output.pushed[|w.output.got|..]| == |b.out|;
  }
}
