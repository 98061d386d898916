/** Bounded waiting.  A client that cannot move waits for one server, servers never
    wait, and each step of that server brings the client's release nearer. */
module Progress {
  import opened Basics
  import opened Elements
  import opened Routes
  import opened System
  import opened Flow
  import opened Control

  /** The client spins in inpb_flush. */
  ghost predicate WaitsForSlot(cl: Client, s: nat) {
    && (match cl.pc
        case PutFlush(t, _, _) => t == s
        case ReadFlush(_) => cl.pending != [] && cl.pending[0] == s
        case ReadyFlush(t) => t == s
        case FlushAll(t) => t == s && s < |cl.boxes|
        case _ => false)
    && !FlushReady(cl, s)
  }

  /** The client spins in outb_blocking_read. */
  ghost predicate WaitsForAnswer(cl: Client, s: nat) {
    (cl.pc.ReadBlock? || cl.pc.Drain?) && cl.pending != [] && cl.pending[0] == s < |cl.boxes| && cl.boxes[s].out == []
  }

  ghost predicate Waits(cl: Client, s: nat) {
    WaitsForSlot(cl, s) || WaitsForAnswer(cl, s)
  }

  /** There is a request for the client ahead in the server's hands or in the ring, or an
      answer it has computed. */
  ghost predicate AnswerAhead(b: Box) {
    b.replies != [] || Queries(b.hand) != [] || Queries(Flat(b.ring)) != []
  }

  /** A client in the middle of an operation that cannot move spins on a full ring, or on
      an output ring with an answer or a published request ahead of it: it never waits
      for something that is still in its own buffer. */
  lemma StuckMeansWaiting(n: nat, nclients: nat, maxSize: nat, run: seq<State>, steps: seq<Step>, i: nat, c: nat)
    requires IsRun(n, nclients, maxSize, run, steps) && i < |run| && c < |run[i].clients|
    requires !run[i].clients[c].pc.Idle? && !Enabled(n, maxSize, run[i].clients[c], Go)
    ensures exists s :: 0 <= s < n && Waits(run[i].clients[c], s)
    ensures forall s: nat :: Waits(run[i].clients[c], s) ==>
              s < |run[i].clients[c].boxes| &&
              var b := run[i].clients[c].boxes[s];
              if WaitsForSlot(run[i].clients[c], s) then |b.ring| == INPB_COUNT else b.local == [] && AnswerAhead(b)
  {
    RunOk(n, nclients, maxSize, run, steps, i);
    var cl := run[i].clients[c];
    assert ClientOk(n, maxSize, cl);
    StuckWaits(n, maxSize, cl);
    forall s: nat | Waits(cl, s)
      ensures s < n && var b := cl.boxes[s];
              if WaitsForSlot(cl, s) then |b.ring| == INPB_COUNT else b.local == [] && AnswerAhead(b)
    {
      WaitFacts(n, maxSize, cl, s);
    }
  }

  lemma StuckWaits(n: nat, maxSize: nat, cl: Client)
    requires ClientOk(n, maxSize, cl) && !cl.pc.Idle? && !Enabled(n, maxSize, cl, Go)
    ensures exists s :: 0 <= s < n && Waits(cl, s)
  {
    if cl.pending != [] { CreditPositive(n, cl); }
    match cl.pc
    case PutFlush(s, _, _) => assert Waits(cl, s);
    case ReadFlush(_) => assert Waits(cl, cl.pending[0]);
    case ReadBlock(_) => assert Waits(cl, cl.pending[0]);
    case ReadyFlush(s) => assert Waits(cl, s);
    case FlushAll(s) => assert Waits(cl, s);
    case Drain => assert Waits(cl, cl.pending[0]);
    case _ =>
  }

  lemma WaitFacts(n: nat, maxSize: nat, cl: Client, s: nat)
    requires ClientOk(n, maxSize, cl) && Waits(cl, s)
    ensures s < n && |cl.boxes[s].ring| <= INPB_COUNT && |cl.boxes[s].hand| <= INPB_SIZE
    ensures WaitsForSlot(cl, s) ==> |cl.boxes[s].ring| == INPB_COUNT
    ensures !WaitsForSlot(cl, s) ==> cl.boxes[s].local == [] && AnswerAhead(cl.boxes[s])
  {
    if cl.pending != [] { CreditPositive(n, cl); }
    assert s < n;
    assert BoxOk(cl, s);
    if !WaitsForSlot(cl, s) {
      Conservation(n, cl, s);
      assert FlushedUpTo(cl, n) || cl.boxes[s].local == [];
    }
  }

  // How far the release is.

  /** Position of the first published slot that holds a query. */
  function FirstQuery(ring: seq<seq<Op>>): nat {
    if ring == [] then 0 else if Queries(ring[0]) != [] then 0 else 1 + FirstQuery(ring[1..])
  }

  /** Turns of the box its server has still to finish before the client can move. */
  ghost function Turns(b: Box, forSlot: bool, inService: bool): nat {
    if forSlot then (if inService then 1 else 0)
    else if inService && (b.replies != [] || Queries(b.hand) != []) then 1
    else FirstQuery(b.ring) + (if inService then 2 else 1)
  }

  /** Clients the server passes before it comes to c. */
  function Distance(cursor: nat, c: nat, nclients: nat): nat
    requires cursor < nclients && c < nclients
  {
    if cursor <= c then c - cursor else c + nclients - cursor
  }

  const TURN := INPB_SIZE + 2   // a read, at most eight requests, a push

  /** A bound on the steps server s makes before client c, which waits for it, can move. */
  ghost function Wait(n: nat, st: State, c: nat, s: nat): nat
    requires Shape(n, st) && s < n && c < |st.clients|
  {
    var sv, cl := st.servers[s], st.clients[c];
    var inService := sv.serving && sv.cursor == c;
    WaitSteps(Turns(cl.boxes[s], WaitsForSlot(cl, s), inService), Distance(sv.cursor, c, |st.clients|),
              if sv.serving then |st.clients[sv.cursor].boxes[s].hand| else TURN - 1, |st.clients|)
  }

  /** Whole rounds over the clients, clients still to pass, and requests still in hand. */
  function WaitSteps(turns: nat, distance: nat, inHand: nat, nclients: nat): nat {
    turns * (TURN * nclients) + TURN * distance + inHand
  }

  lemma FirstQueryFacts(ring: seq<seq<Op>>)
    requires ring != []
    ensures Queries(ring[0]) != [] ==> FirstQuery(ring) == 0
    ensures Queries(ring[0]) == [] ==> FirstQuery(ring) == 1 + FirstQuery(ring[1..])
  {
  }

  lemma {:induction false} FirstQueryBound(ring: seq<seq<Op>>)
    requires Queries(Flat(ring)) != []
    ensures FirstQuery(ring) < |ring|
  {
    if ring != [] {
      FlatHead(ring);
      QueriesConcat(ring[0], Flat(ring[1..]));
      if Queries(ring[0]) == [] { FirstQueryBound(ring[1..]); }
    }
  }

  /** The next turn of the box, in the three kinds of server step. */
  lemma TurnsPoll(b: Box, forSlot: bool)
    requires b.ring != [] && b.hand == [] && b.replies == [] && !forSlot
    ensures Turns(Poll(b), forSlot, true) == Turns(b, forSlot, false)
  {
    FirstQueryFacts(b.ring);
  }

  lemma QueriesHead(ops: seq<Op>)
    requires ops != []
    ensures Queries(ops) != [] <==> !ops[0].Release? || Queries(ops[1..]) != []
  {
    assert ops == [ops[0]] + ops[1..];
    QueriesConcat([ops[0]], ops[1..]);
    assert Queries([ops[0]]) == if ops[0].Release? then [] else [ops[0]] by { assert [ops[0]][..0] == []; }
  }

  lemma TurnsServe(b: Box, forSlot: bool, a: Option<Answer>)
    requires b.hand != [] && (a.None? <==> b.hand[0].Release?)
    ensures Turns(Serve(b, a), forSlot, true) == Turns(b, forSlot, true)
  {
    QueriesHead(b.hand);
  }

  /** Work at another client's box only brings the server nearer. */
  lemma DistanceNext(cursor: nat, c: nat, nclients: nat)
    requires cursor < nclients && c < nclients
    ensures Next(cursor, nclients) < nclients
    ensures Distance(Next(cursor, nclients), c, nclients) == if cursor == c then nclients - 1
            else Distance(cursor, c, nclients) - 1
  {
  }

  lemma Arithmetic(k: nat, m: nat)
    ensures (k + 1) * m == k * m + m
  {
  }

  lemma PollTurn(b: Box)
    requires RingOk(b) && b.hand == [] && b.replies == [] && b.out == [] && b.local == [] && AnswerAhead(b)
    ensures b.ring != [] && |b.ring[0]| < TURN - 1
    ensures Turns(Poll(b), false, true) == Turns(b, false, false)
  {
    FirstQueryBound(b.ring);
    assert BatchOk(b.ring[0]);
    OpsFit(b.ring[0]);
    TurnsPoll(b, false);
  }

  lemma OwnTurn(n: nat, maxSize: nat, st: State, c: nat, s: nat)
    requires SystemOk(n, maxSize, st) && s < n && c < |st.clients| && st.servers[s].cursor == c
    requires Waits(st.clients[c], s)
    requires Shape(n, ServerStep(n, st, s)) && Waits(ServerStep(n, st, s).clients[c], s)
    ensures Wait(n, ServerStep(n, st, s), c, s) < Wait(n, st, c, s)
  {
    var sv, cl := st.servers[s], st.clients[c];
    var b := cl.boxes[s];
    var r := ServerStep(n, st, s);
    var forSlot := WaitsForSlot(cl, s);
    assert ClientOk(n, maxSize, cl) && ServerOk(st, s);
    WaitFacts(n, maxSize, cl, s);
    assert BoxOk(cl, s);
    DistanceNext(c, c, |st.clients|);
    if !sv.serving {
      if !forSlot { PollTurn(b); }
    } else if b.hand != [] {
      ExecAnswers(sv.part, b.hand[0]);
      TurnsServe(b, forSlot, Exec(Messages, sv.part, b.hand[0]).1);
    } else {
      assert Push(b).out == b.out + b.replies;
      Arithmetic(Turns(Push(b), forSlot, false), TURN * |st.clients|);
    }
  }

  lemma OtherTurn(n: nat, maxSize: nat, st: State, c: nat, s: nat)
    requires SystemOk(n, maxSize, st) && s < n && c < |st.clients| && st.servers[s].cursor != c
    requires Waits(st.clients[c], s)
    requires Shape(n, ServerStep(n, st, s))
    ensures Wait(n, ServerStep(n, st, s), c, s) < Wait(n, st, c, s)
  {
    var sv := st.servers[s];
    var d := sv.cursor;
    assert ClientOk(n, maxSize, st.clients[d]);
    assert BoxOk(st.clients[d], s);
    var b := st.clients[d].boxes[s];
    DistanceNext(d, c, |st.clients|);
    if !sv.serving && b.ring != [] {
      assert BatchOk(b.ring[0]);
      OpsFit(b.ring[0]);
    }
  }

  /** While client c waits for server s, each step of s lowers the bound and no other
      step changes it. */
  lemma WaitStep(n: nat, maxSize: nat, st: State, step: Step, c: nat, s: nat)
    requires SystemOk(n, maxSize, st) && CanStep(n, maxSize, st, step) && s < n && c < |st.clients|
    requires Waits(st.clients[c], s)
    requires Shape(n, Apply(n, st, step)) && Waits(Apply(n, st, step).clients[c], s)
    ensures if step == ServerMove(s) then Wait(n, Apply(n, st, step), c, s) < Wait(n, st, c, s)
            else Wait(n, Apply(n, st, step), c, s) == Wait(n, st, c, s)
  {
    match step
    case ServerMove(t) =>
      if t == s {
        if st.servers[s].cursor == c { OwnTurn(n, maxSize, st, c, s); } else { OtherTurn(n, maxSize, st, c, s); }
      } else {
        ServerStepClients(n, st, t);
      }
    case ClientMove(d, a) =>
      assert ClientOk(n, maxSize, st.clients[d]);
      ClientStepBoxes(n, st.clients[d], a);
      if d == c { CannotMove(n, maxSize, st.clients[c], a, s); }
  }

  lemma CannotMove(n: nat, maxSize: nat, cl: Client, a: Act, s: nat)
    requires Waits(cl, s) && n == |cl.boxes|
    ensures !Enabled(n, maxSize, cl, a)
  {
  }

  function Moves(steps: seq<Step>, s: nat): nat {
    if steps == [] then 0 else Moves(steps[..|steps| - 1], s) + (if steps[|steps| - 1] == ServerMove(s) then 1 else 0)
  }

  /** Moves counts the steps of server s. */
  lemma {:induction false} MovesCount(steps: seq<Step>, s: nat)
    ensures Moves(steps, s) == |set k: nat | k < |steps| && steps[k] == ServerMove(s)|
  {
    var here := set k: nat | k < |steps| && steps[k] == ServerMove(s);
    if steps == [] {
      assert here == {};
    } else {
      var m: nat := |steps| - 1;
      var init := steps[..m];
      MovesCount(init, s);
      var before := set k: nat | k < |init| && init[k] == ServerMove(s);
      assert here == if steps[m] == ServerMove(s) then before + {m} else before;
      OneMorePosition(before, here, m, steps[m] == ServerMove(s));
    }
  }

  lemma TurnsBound(n: nat, maxSize: nat, cl: Client, s: nat, inService: bool)
    requires ClientOk(n, maxSize, cl) && Waits(cl, s)
             && (!inService ==> s < n && cl.boxes[s].hand == [] && cl.boxes[s].replies == [])
    ensures s < n && Turns(cl.boxes[s], WaitsForSlot(cl, s), inService) <= INPB_COUNT + 1
  {
    WaitFacts(n, maxSize, cl, s);
    if Queries(Flat(cl.boxes[s].ring)) != [] { FirstQueryBound(cl.boxes[s].ring); }
  }

  lemma BoundArithmetic(t: nat, d: nat, h: nat, clients: nat)
    requires t <= INPB_COUNT + 1 && d < clients && h < TURN
    ensures t * (TURN * clients) + TURN * d + h < (INPB_COUNT + 2) * (TURN * clients)
  {
    assert (INPB_COUNT + 1 - t) * (TURN * clients) >= 0;
  }

  lemma WaitBound(n: nat, maxSize: nat, st: State, c: nat, s: nat)
    requires SystemOk(n, maxSize, st) && s < n && c < |st.clients| && Waits(st.clients[c], s)
    ensures Wait(n, st, c, s) < (INPB_COUNT + 2) * (TURN * |st.clients|)
  {
    var sv, cl := st.servers[s], st.clients[c];
    var d := st.clients[sv.cursor];
    assert ClientOk(n, maxSize, cl) && ClientOk(n, maxSize, d) && ServerOk(st, s);
    assert BoxOk(d, s);
    var inService := sv.serving && sv.cursor == c;
    TurnsBound(n, maxSize, cl, s, inService);
    BoundArithmetic(Turns(cl.boxes[s], WaitsForSlot(cl, s), inService), Distance(sv.cursor, c, |st.clients|),
                    if sv.serving then |d.boxes[s].hand| else TURN - 1, |st.clients|);
  }

  ghost predicate WaitingAt(n: nat, maxSize: nat, st: State, c: nat, s: nat) {
    SystemOk(n, maxSize, st) && s < n && c < |st.clients| && Waits(st.clients[c], s)
  }

  /** Along a stretch of states in which c waits, the steps of s are paid for by the bound. */
  lemma {:induction false} WaitAlong(n: nat, maxSize: nat, run: seq<State>, steps: seq<Step>, c: nat, s: nat)
    requires |run| == |steps| + 1
    requires forall k :: 0 <= k < |run| ==> WaitingAt(n, maxSize, run[k], c, s)
    requires WaitingAt(n, maxSize, run[0], c, s) && WaitingAt(n, maxSize, run[|steps|], c, s)
    requires forall k :: 0 <= k < |steps| ==> Linked(n, maxSize, run[k], steps[k], run[k + 1])
    ensures Moves(steps, s) + Wait(n, run[|steps|], c, s) <= Wait(n, run[0], c, s)
  {
    if steps != [] {
      var m := |steps| - 1;
      assert WaitingAt(n, maxSize, run[m], c, s);
      WaitAlong(n, maxSize, run[..m + 1], steps[..m], c, s);
      assert Linked(n, maxSize, run[m], steps[m], run[m + 1]);
      WaitStep(n, maxSize, run[m], steps[m], c, s);
    }
  }

  /** Bounded waiting: however the other clients and servers behave, a client waiting for
      server s is released before that server has made (INPB_COUNT + 2) * TURN * nclients
      steps.  Servers never wait: CanStep allows a server its next step in every state. */
  lemma BoundedWaiting(n: nat, nclients: nat, maxSize: nat, run: seq<State>, steps: seq<Step>, i: nat, j: nat, c: nat,
                       s: nat)
    requires IsRun(n, nclients, maxSize, run, steps) && i <= j < |run| && s < n
    requires forall k :: i <= k <= j ==> c < |run[k].clients| && Waits(run[k].clients[c], s)
    ensures Moves(steps[i..j], s) < (INPB_COUNT + 2) * (TURN * |run[i].clients|)
    ensures Shape(n, run[j]) && CanStep(n, maxSize, run[j], ServerMove(s))
  {
    var part, moves := run[i..j + 1], steps[i..j];
    forall k | 0 <= k < |part| ensures WaitingAt(n, maxSize, part[k], c, s) {
      RunOk(n, nclients, maxSize, run, steps, i + k);
    }
    forall k | 0 <= k < |moves| ensures Linked(n, maxSize, part[k], moves[k], part[k + 1]) {
      assert Linked(n, maxSize, run[i + k], steps[i + k], run[i + k + 1]);
    }
    assert WaitingAt(n, maxSize, part[0], c, s) && WaitingAt(n, maxSize, part[j - i], c, s);
    WaitAlong(n, maxSize, part, moves, c, s);
    WaitBound(n, maxSize, run[i], c, s);
  }

  // The same in reads of the client's box.

  /** The step is an inpb_read of the box between client c and server s. */
  predicate Reads(st: State, step: Step, c: nat, s: nat) {
    step == ServerMove(s) && s < |st.servers| && !st.servers[s].serving && st.servers[s].cursor == c
  }

  /** A client in inpb_flush is released by the next read of its box. */
  lemma ReadFreesSlot(n: nat, maxSize: nat, st: State, c: nat, s: nat)
    requires SystemOk(n, maxSize, st) && s < n && c < |st.clients| && WaitsForSlot(st.clients[c], s)
    requires Reads(st, ServerMove(s), c, s) && Shape(n, Apply(n, st, ServerMove(s)))
    ensures !Waits(Apply(n, st, ServerMove(s)).clients[c], s)
    ensures Enabled(n, maxSize, Apply(n, st, ServerMove(s)).clients[c], Go)
  {
    assert ClientOk(n, maxSize, st.clients[c]);
    WaitFacts(n, maxSize, st.clients[c], s);
  }

  /** So as long as it waits there its box is not read at all. */
  lemma FlushWithinOneRead(n: nat, nclients: nat, maxSize: nat, run: seq<State>, steps: seq<Step>, i: nat, j: nat,
                           c: nat, s: nat)
    requires IsRun(n, nclients, maxSize, run, steps) && i <= j < |run| && s < n
    requires forall k :: i <= k <= j ==> c < |run[k].clients| && WaitsForSlot(run[k].clients[c], s)
    ensures forall k :: i <= k < j ==> !Reads(run[k], steps[k], c, s)
  {
    forall k | i <= k < j ensures !Reads(run[k], steps[k], c, s) {
      RunOk(n, nclients, maxSize, run, steps, k);
      RunOk(n, nclients, maxSize, run, steps, k + 1);
      assert Linked(n, maxSize, run[k], steps[k], run[k + 1]);
      assert WaitsForSlot(run[k + 1].clients[c], s);
      if Reads(run[k], steps[k], c, s) { ReadFreesSlot(n, maxSize, run[k], c, s); }
    }
  }

  /** Reads of the box still needed before an answer is on its way. */
  ghost function ReadsLeft(b: Box, inService: bool): nat {
    if inService && (b.replies != [] || Queries(b.hand) != []) then 0 else FirstQuery(b.ring) + 1
  }

  predicate InService(st: State, c: nat, s: nat) {
    s < |st.servers| && st.servers[s].serving && st.servers[s].cursor == c
  }

  /** The three things a server can do to the box of a client that waits for an answer. */
  lemma ReadsLeftRead(b: Box)
    requires b.ring != [] && b.hand == [] && b.replies == []
    ensures ReadsLeft(Poll(b), true) + 1 == ReadsLeft(b, false)
  {
    FirstQueryFacts(b.ring);
  }

  lemma ReadsLeftServe(b: Box, a: Option<Answer>)
    requires b.hand != [] && (a.None? <==> b.hand[0].Release?)
    ensures ReadsLeft(Serve(b, a), true) == ReadsLeft(b, true)
  {
    QueriesHead(b.hand);
  }

  lemma OwnRead(n: nat, maxSize: nat, st: State, c: nat, s: nat)
    requires SystemOk(n, maxSize, st) && s < n && c < |st.clients| && st.servers[s].cursor == c
    requires WaitsForAnswer(st.clients[c], s)
    requires Shape(n, ServerStep(n, st, s)) && WaitsForAnswer(ServerStep(n, st, s).clients[c], s)
    ensures var r := ServerStep(n, st, s);
            ReadsLeft(r.clients[c].boxes[s], InService(r, c, s)) + (if Reads(st, ServerMove(s), c, s) then 1 else 0)
            == ReadsLeft(st.clients[c].boxes[s], InService(st, c, s))
  {
    var sv, cl := st.servers[s], st.clients[c];
    var b := cl.boxes[s];
    assert ClientOk(n, maxSize, cl) && ServerOk(st, s);
    WaitFacts(n, maxSize, cl, s);
    if !sv.serving {
      ReadsLeftRead(b);
    } else if b.hand != [] {
      ExecAnswers(sv.part, b.hand[0]);
      ReadsLeftServe(b, Exec(Messages, sv.part, b.hand[0]).1);
    } else {
      assert Push(b).out == b.out + b.replies;
      assert Queries(b.hand) == [];
    }
  }

  lemma ReadStep(n: nat, maxSize: nat, st: State, step: Step, c: nat, s: nat)
    requires SystemOk(n, maxSize, st) && CanStep(n, maxSize, st, step) && s < n && c < |st.clients|
    requires WaitsForAnswer(st.clients[c], s)
    requires Shape(n, Apply(n, st, step)) && WaitsForAnswer(Apply(n, st, step).clients[c], s)
    ensures var r := Apply(n, st, step);
            ReadsLeft(r.clients[c].boxes[s], InService(r, c, s)) + (if Reads(st, step, c, s) then 1 else 0)
            == ReadsLeft(st.clients[c].boxes[s], InService(st, c, s))
  {
    match step
    case ServerMove(t) =>
      if t == s && st.servers[s].cursor == c { OwnRead(n, maxSize, st, c, s); } else { ServerStepClients(n, st, t); }
    case ClientMove(d, a) =>
      if d == c { CannotMove(n, maxSize, st.clients[c], a, s); }
  }

  function CountReads(run: seq<State>, steps: seq<Step>, c: nat, s: nat): nat
    requires |run| == |steps| + 1
  {
    if steps == [] then 0
    else
      var m := |steps| - 1;
      CountReads(run[..m + 1], steps[..m], c, s) + (if Reads(run[m], steps[m], c, s) then 1 else 0)
  }

  /** CountReads counts the reads of the box. */
  lemma {:induction false} ReadsCount(run: seq<State>, steps: seq<Step>, c: nat, s: nat)
    requires |run| == |steps| + 1
    ensures CountReads(run, steps, c, s) == |set k: nat | k < |steps| && Reads(run[k], steps[k], c, s)|
  {
    var here := set k: nat | k < |steps| && Reads(run[k], steps[k], c, s);
    if steps == [] {
      assert here == {};
    } else {
      var m: nat := |steps| - 1;
      var part, init := run[..m + 1], steps[..m];
      ReadsCount(part, init, c, s);
      var before := set k: nat | k < |init| && Reads(part[k], init[k], c, s);
      forall k: nat ensures k in here <==> k in before || (k == m && Reads(run[m], steps[m], c, s)) {
        if k < m { assert part[k] == run[k] && init[k] == steps[k]; }
      }
      assert here == if Reads(run[m], steps[m], c, s) then before + {m} else before;
      OneMorePosition(before, here, m, Reads(run[m], steps[m], c, s));
    }
  }

  ghost predicate AwaitsAnswer(n: nat, maxSize: nat, st: State, c: nat, s: nat) {
    SystemOk(n, maxSize, st) && s < n && c < |st.clients| && WaitsForAnswer(st.clients[c], s)
  }

  lemma {:induction false} ReadsAlong(n: nat, maxSize: nat, run: seq<State>, steps: seq<Step>, c: nat, s: nat)
    requires |run| == |steps| + 1
    requires forall k :: 0 <= k < |run| ==> AwaitsAnswer(n, maxSize, run[k], c, s)
    requires AwaitsAnswer(n, maxSize, run[0], c, s) && AwaitsAnswer(n, maxSize, run[|steps|], c, s)
    requires forall k :: 0 <= k < |steps| ==> Linked(n, maxSize, run[k], steps[k], run[k + 1])
    ensures var st, r := run[0], run[|steps|];
            CountReads(run, steps, c, s) + ReadsLeft(r.clients[c].boxes[s], InService(r, c, s))
            == ReadsLeft(st.clients[c].boxes[s], InService(st, c, s))
  {
    if steps != [] {
      var m := |steps| - 1;
      assert AwaitsAnswer(n, maxSize, run[m], c, s);
      ReadsAlong(n, maxSize, run[..m + 1], steps[..m], c, s);
      assert Linked(n, maxSize, run[m], steps[m], run[m + 1]);
      ReadStep(n, maxSize, run[m], steps[m], c, s);
    }
  }

  lemma ReadsLeftBound(n: nat, maxSize: nat, cl: Client, s: nat, inService: bool)
    requires ClientOk(n, maxSize, cl) && WaitsForAnswer(cl, s)
    requires !inService ==> s < n && cl.boxes[s].hand == [] && cl.boxes[s].replies == []
    ensures s < n && ReadsLeft(cl.boxes[s], inService) <= INPB_COUNT
  {
    WaitFacts(n, maxSize, cl, s);
    if Queries(Flat(cl.boxes[s].ring)) != [] { FirstQueryBound(cl.boxes[s].ring); }
  }

  /** However the others behave, while a client waits in outb_blocking_read its box is read
      at most INPB_COUNT times. */
  lemma AnswerWithinReads(n: nat, nclients: nat, maxSize: nat, run: seq<State>, steps: seq<Step>, i: nat, j: nat,
                          c: nat, s: nat)
    requires IsRun(n, nclients, maxSize, run, steps) && i <= j < |run| && s < n
    requires forall k :: i <= k <= j ==> c < |run[k].clients| && WaitsForAnswer(run[k].clients[c], s)
    ensures CountReads(run[i..j + 1], steps[i..j], c, s) <= INPB_COUNT
  {
    var part, moves := run[i..j + 1], steps[i..j];
    forall k | 0 <= k < |part| ensures AwaitsAnswer(n, maxSize, part[k], c, s) {
      RunOk(n, nclients, maxSize, run, steps, i + k);
    }
    forall k | 0 <= k < |moves| ensures Linked(n, maxSize, part[k], moves[k], part[k + 1]) {
      assert Linked(n, maxSize, run[i + k], steps[i + k], run[i + k + 1]);
    }
    assert AwaitsAnswer(n, maxSize, part[0], c, s) && AwaitsAnswer(n, maxSize, part[j - i], c, s);
    ReadsAlong(n, maxSize, part, moves, c, s);
    assert ClientOk(n, maxSize, run[i].clients[c]) && ServerOk(run[i], s);
    ReadsLeftBound(n, maxSize, run[i].clients[c], s, InService(run[i], c, s));
  }
}
