/** The whole message-passing table as a step system: any number of clients and
    servers, one step per operation on a shared ring.  InputRing and OutputRing show
    that publishing and reading a slot, and pushing and reading answers, are each a
    single step of this system although the code does them word by word. */
module System {
  import opened Basics
  import opened Elements
  import opened Routes

  const MAX_PENDING_SIZE := OUTB_SIZE * MAX_SERVERS
  const MAX_PENDING_PER_SERVER := OUTB_SIZE - INPB_SIZE

  /** A request as a server served it. */
  datatype Event = Event(op: Op, answer: Option<Answer>)

  /** Everything between one client and one server. */
  datatype Box = Box(
    local: seq<Op>,             // written, not yet flushed
    ring: seq<seq<Op>>,         // published slots, oldest first
    hand: seq<Op>,              // what the server still has to serve of the slot it read
    replies: seq<Answer>,       // answers to the part already served, not yet pushed
    out: seq<Answer>,           // the unread part of the output ring
    held: multiset<Answer>,     // values delivered to the caller and not given back
    served: seq<Event>)         // history: requests served, in order

  /** What a client does once the value it waits for has arrived. */
  datatype Task = Submit(op: Op, batch: bool) | Deliver

  datatype Pc =
    | Idle(batch: bool)                        // batch: between two queries of smp_hash_doall
    | Admit(op: Op, batch: bool)               // about to test pending_count
    | Put(s: nat, op: Op, batch: bool)         // in inpb_write
    | PutFlush(s: nat, op: Op, batch: bool)    // in the flush inpb_write makes
    | Read(task: Task)                         // outb_read in read_next_pending_value
    | ReadFlush(task: Task)                    // the flush after an empty read
    | ReadBlock(task: Task)                    // outb_blocking_read
    | ReadyFlush(s: nat)                       // the forced flush of mp_mark_ready
    | FlushAll(s: nat)                         // smp_hash_doall flushes every box
    | Drain                                    // and reads the remaining answers

  datatype Client = Client(
    pc: Pc,
    credit: seq<nat>,              // pending_count
    pending: seq<nat>,             // pending_servers from wr_index to pending_index
    rd: nat,                       // values of got the caller has
    got: seq<(nat, Answer)>,       // every value read, with its server; undelivered from rd on
    later: seq<(nat, Answer)>,     // undelivered values that were read before an smp_hash_doall
    cmds: seq<(nat, Op)>,          // history: everything written, with its server
    boxes: seq<Box>)

  datatype Server = Server(part: Part, serving: bool, cursor: nat, log: seq<(nat, Event)>)

  datatype State = State(clients: seq<Client>, servers: seq<Server>)

  function ServerOf(key: nat, n: nat): nat
    requires n > 0
  {
    key % n
  }

  function Words(op: Op): nat {
    if op.Insert? then 2 else 1
  }

  function WordsOf(ops: seq<Op>): nat {
    if ops == [] then 0 else WordsOf(ops[..|ops| - 1]) + Words(ops[|ops| - 1])
  }

  // Data operations of a client.

  function EmptyBox(): Box {
    Box([], [], [], [], [], multiset{}, [])
  }

  function SetBox(cl: Client, s: nat, b: Box): Client
    requires s < |cl.boxes|
  {
    cl.(boxes := cl.boxes[s := b])
  }

  /** inpb_flush of a nonempty local buffer into a free slot. */
  function Publish(cl: Client, s: nat): Client
    requires s < |cl.boxes|
  {
    var b := cl.boxes[s];
    SetBox(cl, s, b.(ring := b.ring + [b.local], local := []))
  }

  /** The rest of inpb_write, and for a query the bookkeeping after it. */
  function Append(cl: Client, s: nat, op: Op): Client
    requires s < |cl.boxes| == |cl.credit|
  {
    var b := cl.boxes[s];
    if op.Release? then
      SetBox(cl, s, b.(local := b.local + [op], held := b.held - multiset{op.ref})).(cmds := cl.cmds + [(s, op)])
    else
      SetBox(cl, s, b.(local := b.local + [op]))
        .(cmds := cl.cmds + [(s, op)], credit := cl.credit[s := cl.credit[s] + 1], pending := cl.pending + [s])
  }

  predicate CanTake(cl: Client) {
    && cl.pending != [] && cl.pending[0] < |cl.boxes| == |cl.credit|
    && cl.boxes[cl.pending[0]].out != [] && cl.credit[cl.pending[0]] > 0
  }

  /** A successful outb_read, and the bookkeeping of read_next_pending_value. */
  function Take(cl: Client): Client
    requires CanTake(cl)
  {
    var s := cl.pending[0];
    var b := cl.boxes[s];
    SetBox(cl, s, b.(out := b.out[1..]))
      .(got := cl.got + [(s, b.out[0])], credit := cl.credit[s := cl.credit[s] - 1], pending := cl.pending[1..])
  }

  /** The caller receives the value at rd_index. */
  function DeliverNext(cl: Client): Client
    requires cl.rd < |cl.got| && cl.got[cl.rd].0 < |cl.boxes|
  {
    var (s, a) := cl.got[cl.rd];
    SetBox(cl, s, cl.boxes[s].(held := cl.boxes[s].held + multiset{a})).(rd := cl.rd + 1)
  }

  /** The caller receives a value that was read before an smp_hash_doall. */
  function DeliverLater(cl: Client): Client
    requires cl.later != [] && cl.later[0].0 < |cl.boxes|
  {
    var (s, a) := cl.later[0];
    SetBox(cl, s, cl.boxes[s].(held := cl.boxes[s].held + multiset{a})).(later := cl.later[1..])
  }

  /** smp_hash_doall starts: the values already read stay in the window, and it keeps its
      own apart from them. */
  function SetAside(cl: Client): Client
    requires cl.rd <= |cl.got|
  {
    cl.(later := cl.later + cl.got[cl.rd..], rd := |cl.got|)
  }

  /** smp_hash_doall returns: the caller receives all the values. */
  function DeliverAll(cl: Client): Client
    requires cl.rd <= |cl.got|
    decreases |cl.got| - cl.rd
  {
    if cl.rd == |cl.got| || cl.got[cl.rd].0 >= |cl.boxes| then cl else DeliverAll(DeliverNext(cl))
  }

  // The control flow of a client.

  datatype Act =
    | Begin(op: Op)                   // smp_hash_lookup, smp_hash_insert, or the next query of smp_hash_doall
    | Get                             // smp_get_next, or smp_try_get_next when a value is there
    | GiveBack(s: nat, ref: Answer)   // mp_release_value or mp_mark_ready
    | BeginBatch | EndBatch           // the loop of smp_hash_doall starts, and is over
    | Go                              // the next step inside the operation in progress

  predicate HasRoom(cl: Client, s: nat) {
    s < |cl.boxes| && |cl.boxes[s].ring| < INPB_COUNT
  }

  function Flushed(cl: Client, s: nat): Client
    requires s < |cl.boxes|
  {
    if cl.boxes[s].local == [] then cl else Publish(cl, s)
  }

  predicate FlushReady(cl: Client, s: nat) {
    s < |cl.boxes| && (cl.boxes[s].local == [] || HasRoom(cl, s))
  }

  /** Can the client take this step now?  The cases left out are spinning, or a call
      that returns 0 and changes nothing. */
  predicate Enabled(n: nat, maxSize: nat, cl: Client, a: Act) {
    match a
    case Begin(op) =>
      && cl.pc.Idle? && !op.Release? && n > 0
      && (op.Insert? ==> op.size < INT_LIMIT && RoundedSize(op.size) <= maxSize)
      && (cl.pc.batch || |cl.later| + |cl.got| + |cl.pending| < cl.rd + MAX_PENDING_SIZE)
    case Get => cl.pc == Idle(false) && (cl.later != [] || cl.rd < |cl.got| || cl.pending != [])
    case GiveBack(s, r) => cl.pc == Idle(false) && r.Ref? && s < |cl.boxes| && r in cl.boxes[s].held
    case BeginBatch => cl.pc == Idle(false) && cl.pending == []
    case EndBatch => cl.pc == Idle(true)
    case Go =>
      match cl.pc
      case Idle(_) => false
      case Admit(_, _) => true
      case Put(_, _, _) => true
      case PutFlush(s, _, _) => FlushReady(cl, s)
      case Read(_) => true
      case ReadFlush(_) => cl.pending != [] && FlushReady(cl, cl.pending[0])
      case ReadBlock(_) => CanTake(cl)
      case ReadyFlush(s) => FlushReady(cl, s)
      case FlushAll(s) => s == n || FlushReady(cl, s)
      case Drain => cl.pending == [] || CanTake(cl)
  }

  function AfterTake(cl: Client, task: Task): Client {
    match task
    case Submit(op, batch) => cl.(pc := Admit(op, batch))
    case Deliver =>
      if cl.rd < |cl.got| && cl.got[cl.rd].0 < |cl.boxes| then DeliverNext(cl).(pc := Idle(false)) else cl
  }

  /** mp_mark_ready flushes at once. */
  function AfterPut(s: nat, op: Op, batch: bool): Pc {
    if op.Release? && op.ref.Ref? && op.ref.hold == Inserter then ReadyFlush(s) else Idle(batch)
  }

  function Go1(n: nat, cl: Client): Client
    requires n > 0 && n == |cl.boxes| == |cl.credit| && cl.rd <= |cl.got|
  {
    match cl.pc
    case Idle(_) => cl
    case Admit(op, batch) =>
      if op.Release? then cl else
        var s := ServerOf(op.key, n);
        if cl.credit[s] >= MAX_PENDING_PER_SERVER then cl.(pc := Read(Submit(op, batch)))
        else cl.(pc := Put(s, op, batch))
    case Put(s, op, batch) =>
      if s >= n then cl
      else if WordsOf(cl.boxes[s].local) + Words(op) > INPB_SIZE then cl.(pc := PutFlush(s, op, batch))
      else Append(cl, s, op).(pc := AfterPut(s, op, batch))
    case PutFlush(s, op, batch) => if FlushReady(cl, s) then Flushed(cl, s).(pc := Put(s, op, batch)) else cl
    case Read(task) => if CanTake(cl) then AfterTake(Take(cl), task) else cl.(pc := ReadFlush(task))
    case ReadFlush(task) =>
      if cl.pending != [] && FlushReady(cl, cl.pending[0]) then Flushed(cl, cl.pending[0]).(pc := ReadBlock(task))
      else cl
    case ReadBlock(task) => if CanTake(cl) then AfterTake(Take(cl), task) else cl
    case ReadyFlush(s) => if FlushReady(cl, s) then Flushed(cl, s).(pc := Idle(false)) else cl
    case FlushAll(s) =>
      if s == n then cl.(pc := Drain) else if FlushReady(cl, s) then Flushed(cl, s).(pc := FlushAll(s + 1)) else cl
    case Drain => if cl.pending == [] then DeliverAll(cl).(pc := Idle(false)) else if CanTake(cl) then Take(cl) else cl
  }

  function ClientStep(n: nat, cl: Client, a: Act): Client
    requires n > 0 && n == |cl.boxes| == |cl.credit| && cl.rd <= |cl.got|
  {
    match a
    case Begin(op) => if cl.pc.Idle? then cl.(pc := Admit(op, cl.pc.batch)) else cl
    case Get =>
      if cl.later != [] && cl.later[0].0 < n then DeliverLater(cl)
      else if cl.rd < |cl.got| && cl.got[cl.rd].0 < n then DeliverNext(cl)
      else cl.(pc := Read(Deliver))
    case GiveBack(s, r) => cl.(pc := Put(s, Release(r), false))
    case BeginBatch => SetAside(cl).(pc := Idle(true))
    case EndBatch => cl.(pc := FlushAll(0))
    case Go => Go1(n, cl)
  }

  // Server steps.

  function Poll(b: Box): Box
    requires b.ring != []
  {
    b.(hand := b.ring[0], ring := b.ring[1..])
  }

  function Serve(b: Box, answer: Option<Answer>): Box
    requires b.hand != []
  {
    b.(hand := b.hand[1..],
       replies := b.replies + (if answer.Some? then [answer.value] else []),
       served := b.served + [Event(b.hand[0], answer)])
  }

  function Push(b: Box): Box {
    b.(out := b.out + b.replies, replies := [])
  }

  // The whole system.

  datatype Step = ClientMove(c: nat, act: Act) | ServerMove(s: nat)

  ghost predicate Shape(n: nat, st: State) {
    && n > 0 && |st.servers| == n && |st.clients| > 0
    && (forall c :: 0 <= c < |st.clients| ==>
          n == |st.clients[c].boxes| == |st.clients[c].credit| && st.clients[c].rd <= |st.clients[c].got|)
    && (forall s :: 0 <= s < n ==> st.servers[s].cursor < |st.clients|)
  }

  function Next(cursor: nat, nclients: nat): nat {
    if cursor + 1 < nclients then cursor + 1 else 0
  }

  function SetServerBox(st: State, c: nat, s: nat, b: Box, sv: Server): State
    requires c < |st.clients| && s < |st.servers| && s < |st.clients[c].boxes|
  {
    State(st.clients[c := SetBox(st.clients[c], s, b)], st.servers[s := sv])
  }

  /** hash_table_server: read the next client's box, serve one request of the slot in
      hand, or push the answers of a finished slot. */
  ghost function ServerStep(n: nat, st: State, s: nat): State
    requires Shape(n, st) && s < n
  {
    var sv := st.servers[s];
    var c := sv.cursor;
    var b := st.clients[c].boxes[s];
    if !sv.serving then
      if b.ring == [] then st.(servers := st.servers[s := sv.(cursor := Next(c, |st.clients|))])
      else SetServerBox(st, c, s, Poll(b), sv.(serving := true))
    else if b.hand != [] then
      var (p, a) := Exec(Messages, sv.part, b.hand[0]);
      SetServerBox(st, c, s, Serve(b, a), sv.(part := p, log := sv.log + [(c, Event(b.hand[0], a))]))
    else
      SetServerBox(st, c, s, Push(b), sv.(serving := false, cursor := Next(c, |st.clients|)))
  }

  ghost predicate CanStep(n: nat, maxSize: nat, st: State, step: Step)
    requires Shape(n, st)
  {
    match step
    case ClientMove(c, a) => c < |st.clients| && Enabled(n, maxSize, st.clients[c], a)
    case ServerMove(s) => s < n
  }

  ghost function Apply(n: nat, st: State, step: Step): State
    requires Shape(n, st)
  {
    match step
    case ClientMove(c, a) =>
      if c < |st.clients| then st.(clients := st.clients[c := ClientStep(n, st.clients[c], a)]) else st
    case ServerMove(s) => if s < n then ServerStep(n, st, s) else st
  }

  function Start(n: nat, nclients: nat, maxSize: nat): State {
    State(seq(nclients, _ => Client(Idle(false), seq(n, _ => 0), [], 0, [], [], [], seq(n, _ => EmptyBox()))),
          seq(n, _ => Server(Empty(maxSize), false, 0, [])))
  }

  ghost predicate Linked(n: nat, maxSize: nat, st: State, step: Step, next: State) {
    Shape(n, st) && CanStep(n, maxSize, st, step) && next == Apply(n, st, step)
  }

  /** A run: states from the start, joined by enabled steps in any order. */
  ghost predicate IsRun(n: nat, nclients: nat, maxSize: nat, run: seq<State>, steps: seq<Step>) {
    && n > 0 && nclients > 0
    && |run| == |steps| + 1 && run[0] == Start(n, nclients, maxSize)
    && forall i :: 0 <= i < |steps| ==> Linked(n, maxSize, run[i], steps[i], run[i + 1])
  }
}
