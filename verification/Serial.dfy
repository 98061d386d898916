/** Schedule independence: what the servers do, in whatever interleaving, is what a
    sequential table does with the same commands. */
module Serial {
  import opened Basics
  import opened Elements
  import opened Lifetime
  import opened Routes
  import opened System
  import opened Flow
  import Control
  import opened Safety

  // The sequential table: one command after the other on n partitions.

  function TableRun(sch: Scheme, n: nat, maxSize: nat, cmds: seq<(nat, Op)>): (ps: seq<Part>)
    ensures |ps| == n
  {
    if cmds == [] then seq(n, _ => Empty(maxSize)) else
      var ps, x := TableRun(sch, n, maxSize, cmds[..|cmds| - 1]), cmds[|cmds| - 1];
      if x.0 < n then ps[x.0 := Exec(sch, ps[x.0], x.1).0] else ps
  }

  /** Its answers in command order, each with the server that owns the key. */
  function TableAnswers(sch: Scheme, n: nat, maxSize: nat, cmds: seq<(nat, Op)>): seq<(nat, Answer)> {
    if cmds == [] then [] else
      var init, x := cmds[..|cmds| - 1], cmds[|cmds| - 1];
      var earlier := TableAnswers(sch, n, maxSize, init);
      if x.0 >= n then earlier else
        var a := Exec(sch, TableRun(sch, n, maxSize, init)[x.0], x.1).1;
        if a.Some? then earlier + [(x.0, a.value)] else earlier
  }

  function Somes(xs: seq<Option<Answer>>): seq<Answer> {
    if xs == [] then [] else
      var last := xs[|xs| - 1];
      Somes(xs[..|xs| - 1]) + (if last.Some? then [last.value] else [])
  }

  lemma SomesSnoc(xs: seq<Option<Answer>>, x: Option<Answer>)
    ensures Somes(xs + [x]) == Somes(xs) + (if x.Some? then [x.value] else [])
  {
    assert (xs + [x])[..|xs + [x]| - 1] == xs;
  }

  /** The sequential table is, partition by partition, the run of the commands for it. */
  lemma {:induction false} TableProject(sch: Scheme, n: nat, maxSize: nat, cmds: seq<(nat, Op)>, s: nat)
    requires s < n
    ensures Projects(sch, n, maxSize, cmds, s)
  {
    if cmds != [] {
      var init, x := cmds[..|cmds| - 1], cmds[|cmds| - 1];
      TableProject(sch, n, maxSize, init, s);
      if x.0 == s { OwnRoute(sch, n, maxSize, cmds, s); } else { OtherRoute(sch, n, maxSize, cmds, s); }
    }
  }

  ghost predicate Projects(sch: Scheme, n: nat, maxSize: nat, cmds: seq<(nat, Op)>, s: nat)
    requires s < n
  {
    && TableRun(sch, n, maxSize, cmds)[s] == Run(sch, Empty(maxSize), Route(cmds, s))
    && Route(TableAnswers(sch, n, maxSize, cmds), s) == Somes(Answers(sch, Empty(maxSize), Route(cmds, s)))
  }

  lemma OwnRoute(sch: Scheme, n: nat, maxSize: nat, cmds: seq<(nat, Op)>, s: nat)
    requires s < n && cmds != [] && cmds[|cmds| - 1].0 == s && Projects(sch, n, maxSize, cmds[..|cmds| - 1], s)
    ensures Projects(sch, n, maxSize, cmds, s)
  {
    var init, op := cmds[..|cmds| - 1], cmds[|cmds| - 1].1;
    var p0, ops := Empty(maxSize), Route(init, s);
    RunSnocAll(sch, p0, ops, op);
    var a := Exec(sch, Run(sch, p0, ops), op).1;
    SomesSnoc(Answers(sch, p0, ops), a);
    if a.Some? { RouteSnoc(TableAnswers(sch, n, maxSize, init), (s, a.value), s); }
  }

  lemma OtherRoute(sch: Scheme, n: nat, maxSize: nat, cmds: seq<(nat, Op)>, s: nat)
    requires s < n && cmds != [] && cmds[|cmds| - 1].0 != s && Projects(sch, n, maxSize, cmds[..|cmds| - 1], s)
    ensures Projects(sch, n, maxSize, cmds, s)
  {
    var init, x := cmds[..|cmds| - 1], cmds[|cmds| - 1];
    assert Route(cmds, s) == Route(init, s);
    if x.0 < n {
      var a := Exec(sch, TableRun(sch, n, maxSize, init)[x.0], x.1).1;
      if a.Some? { RouteSnoc(TableAnswers(sch, n, maxSize, init), (x.0, a.value), s); }
    }
  }

  lemma {:induction false} TableTags(sch: Scheme, n: nat, maxSize: nat, cmds: seq<(nat, Op)>)
    requires forall i :: 0 <= i < |cmds| ==> cmds[i].0 < n
    ensures Tags(TableAnswers(sch, n, maxSize, cmds)) == Tags(Asked(cmds))
  {
    if cmds != [] {
      var init, x := cmds[..|cmds| - 1], cmds[|cmds| - 1];
      TableTags(sch, n, maxSize, init);
      var p := TableRun(sch, n, maxSize, init)[x.0];
      AnsweredOps(sch, p, x.1);
      if x.1.Release? { assert Asked(cmds) == Asked(init); }
    }
  }

  lemma AnsweredOps(sch: Scheme, p: Part, op: Op)
    ensures Exec(sch, p, op).1.None? <==> op.Release?
  {
  }

  // Longer runs extend the answers.

  lemma {:induction false} AnswersPrefix(sch: Scheme, p: Part, a: seq<Op>, whole: seq<Op>)
    requires a <= whole
    ensures Answers(sch, p, a) <= Answers(sch, p, whole)
    ensures Somes(Answers(sch, p, a)) <= Somes(Answers(sch, p, whole))
  {
    if |a| == |whole| {
      assert a == whole;
    } else {
      var init := whole[..|whole| - 1];
      AnswersPrefix(sch, p, a, init);
      SomesInit(Answers(sch, p, whole));
      AnswersInit(sch, p, whole);
    }
  }

  lemma AnswersInit(sch: Scheme, p: Part, ops: seq<Op>)
    requires ops != []
    ensures Answers(sch, p, ops) != []
    ensures Answers(sch, p, ops)[..|Answers(sch, p, ops)| - 1] == Answers(sch, p, ops[..|ops| - 1])
  {
  }

  lemma SomesInit(xs: seq<Option<Answer>>)
    ensures xs != [] ==> Somes(xs[..|xs| - 1]) <= Somes(xs)
  {
  }

  lemma {:induction false} OneClientLog(log: seq<(nat, Event)>)
    requires forall i :: 0 <= i < |log| ==> log[i].0 == 0
    ensures LogOps(log) == OpsOf(Route(log, 0)) && Somes(LogAnswers(log)) == ValuesOf(Route(log, 0))
  {
    if log != [] {
      var init, x := log[..|log| - 1], log[|log| - 1];
      OneClientLog(init);
      OpsSnoc(Route(init, 0), x.1);
      SomesSnoc(LogAnswers(init), x.1.answer);
    }
  }

  lemma OneClientServed(n: nat, maxSize: nat, st: State, s: nat)
    requires SafeState(n, maxSize, st) && |st.clients| == 1 && s < n
    ensures var b := st.clients[0].boxes[s];
            && LogOps(st.servers[s].log) == OpsOf(b.served)
            && Somes(Answers(Messages, Empty(maxSize), OpsOf(b.served))) == ValuesOf(b.served)
  {
    assert TableOk(n, maxSize, st, s);
    OneClientLog(st.servers[s].log);
  }

  lemma ServedPrefix(cl: Client, s: nat)
    requires s < |cl.boxes| == |cl.credit| && BoxOk(cl, s)
    ensures OpsOf(cl.boxes[s].served) <= Route(cl.cmds, s)
    ensures Route(cl.got, s) <= ValuesOf(cl.boxes[s].served)
  {
  }

  lemma GotPrefix(n: nat, maxSize: nat, cl: Client, s: nat)
    requires DataOk(n, cl) && s < n
    requires var served := cl.boxes[s].served;
             Somes(Answers(Messages, Empty(maxSize), OpsOf(served))) == ValuesOf(served)
    ensures Route(cl.got, s) <= Route(TableAnswers(Messages, n, maxSize, cl.cmds), s)
  {
    assert BoxOk(cl, s);
    ServedPrefix(cl, s);
    TableProject(Messages, n, maxSize, cl.cmds, s);
    AnswersPrefix(Messages, Empty(maxSize), OpsOf(cl.boxes[s].served), Route(cl.cmds, s));
  }

  lemma NoRoute<T>(xs: seq<(nat, T)>, n: nat, t: nat)
    requires t >= n && forall i :: 0 <= i < |xs| ==> xs[i].0 < n
    ensures Route(xs, t) == []
  {
    if xs != [] { NoRoute(xs[..|xs| - 1], n, t); }
  }

  lemma SameAsTable(n: nat, maxSize: nat, cl: Client)
    requires DataOk(n, cl)
    requires forall s :: 0 <= s < n ==> Route(cl.got, s) <= Route(TableAnswers(Messages, n, maxSize, cl.cmds), s)
    ensures cl.got <= TableAnswers(Messages, n, maxSize, cl.cmds)
    ensures |TableAnswers(Messages, n, maxSize, cl.cmds)| == |cl.got| + |cl.pending|
  {
    var t := TableAnswers(Messages, n, maxSize, cl.cmds);
    TableTags(Messages, n, maxSize, cl.cmds);
    assert |Tags(cl.got)| == |cl.got| && Tags(t)[..|cl.got|] == Tags(cl.got);
    forall s: nat ensures Route(cl.got, s) <= Route(t, s) {
      if s >= n { NoRoute(cl.got, n, s); }
    }
    SameRoutes(cl.got, t);
  }

  lemma OneClientGot(n: nat, maxSize: nat, st: State)
    requires SafeState(n, maxSize, st) && |st.clients| == 1
    ensures var cl := st.clients[0]; cl.got <= TableAnswers(Messages, n, maxSize, cl.cmds)
    ensures var cl := st.clients[0]; |TableAnswers(Messages, n, maxSize, cl.cmds)| == |cl.got| + |cl.pending|
  {
    var cl := st.clients[0];
    assert Control.ClientOk(n, maxSize, cl);
    forall s | 0 <= s < n ensures Route(cl.got, s) <= Route(TableAnswers(Messages, n, maxSize, cl.cmds), s) {
      OneClientServed(n, maxSize, st, s);
      GotPrefix(n, maxSize, cl, s);
    }
    SameAsTable(n, maxSize, cl);
  }

  /** Every request has been served. */
  ghost predicate AllServed(cl: Client) {
    forall s :: 0 <= s < |cl.boxes| ==> cl.boxes[s].hand == [] && cl.boxes[s].ring == [] && cl.boxes[s].local == []
  }

  /** Schedule independence: with one client, whatever the interleaving of client and
      server steps and whether the client uses the asynchronous calls or smp_hash_doall,
      the values it has read are the first answers of the sequential table to the
      commands it issued, in order; and once everything is served the partitions are
      those of the sequential table. */
  lemma ScheduleIndependence(n: nat, maxSize: nat, run: seq<State>, steps: seq<Step>, i: nat)
    requires IsRun(n, 1, maxSize, run, steps) && i < |run|
    ensures |run[i].clients| == 1 && |run[i].servers| == n
    ensures var cl := run[i].clients[0];
            && cl.got <= TableAnswers(Messages, n, maxSize, cl.cmds)
            && |TableAnswers(Messages, n, maxSize, cl.cmds)| == |cl.got| + |cl.pending|
            && (AllServed(cl) ==> forall s :: 0 <= s < n ==>
                  run[i].servers[s].part == TableRun(Messages, n, maxSize, cl.cmds)[s])
  {
    RunSafe(n, 1, maxSize, run, steps, i);
    ClientsStay(n, 1, maxSize, run, steps, i);
    var cl := run[i].clients[0];
    OneClientGot(n, maxSize, run[i]);
    if AllServed(cl) {
      forall s | 0 <= s < n ensures run[i].servers[s].part == TableRun(Messages, n, maxSize, cl.cmds)[s] {
        ServedTable(n, maxSize, run[i], s);
      }
    }
  }

  lemma ServedTable(n: nat, maxSize: nat, st: State, s: nat)
    requires SafeState(n, maxSize, st) && |st.clients| == 1 && s < n && AllServed(st.clients[0])
    ensures var cl := st.clients[0];
            && LogOps(st.servers[s].log) == Route(cl.cmds, s)
            && st.servers[s].part == TableRun(Messages, n, maxSize, cl.cmds)[s]
  {
    var cl := st.clients[0];
    assert Control.ClientOk(n, maxSize, cl) && TableOk(n, maxSize, st, s);
    assert BoxOk(cl, s);
    assert Flat(cl.boxes[s].ring) == [];
    OneClientServed(n, maxSize, st, s);
    TableProject(Messages, n, maxSize, cl.cmds, s);
  }

  lemma {:induction false} ClientsStay(n: nat, nclients: nat, maxSize: nat, run: seq<State>, steps: seq<Step>, i: nat)
    requires IsRun(n, nclients, maxSize, run, steps) && i < |run|
    ensures |run[i].clients| == nclients
  {
    if i > 0 {
      ClientsStay(n, nclients, maxSize, run, steps, i - 1);
      assert Linked(n, maxSize, run[i - 1], steps[i - 1], run[i - 1 + 1]);
    }
  }

  /** The locking design run by one client is the sequential table with atomic counts.
      Once everything is served it agrees with the message-passing designs: the same
      answers, the same recency lists and the same live elements in every partition. */
  lemma DesignsAgree(n: nat, maxSize: nat, run: seq<State>, steps: seq<Step>, i: nat)
    requires IsRun(n, 1, maxSize, run, steps) && i < |run|
    requires Shape(n, run[i]) && AllServed(run[i].clients[0])
    ensures var cmds := run[i].clients[0].cmds;
            && TableAnswers(Messages, n, maxSize, cmds) == TableAnswers(Atomics, n, maxSize, cmds)
            && forall s :: 0 <= s < n ==>
                 Agree(run[i].servers[s].part, TableRun(Atomics, n, maxSize, cmds)[s])
  {
    RunSafe(n, 1, maxSize, run, steps, i);
    ClientsStay(n, 1, maxSize, run, steps, i);
    var cl := run[i].clients[0];
    assert Control.ClientOk(n, maxSize, cl);
    forall s | 0 <= s < n
      ensures Agree(run[i].servers[s].part, TableRun(Atomics, n, maxSize, cl.cmds)[s])
      ensures Route(TableAnswers(Messages, n, maxSize, cl.cmds), s)
              == Route(TableAnswers(Atomics, n, maxSize, cl.cmds), s)
    {
      AgreeAt(n, maxSize, run[i], s);
    }
    SameAnswers(n, maxSize, cl.cmds);
  }

  lemma SameAnswers(n: nat, maxSize: nat, cmds: seq<(nat, Op)>)
    requires forall i :: 0 <= i < |cmds| ==> cmds[i].0 < n
    requires forall s :: 0 <= s < n ==>
      Route(TableAnswers(Messages, n, maxSize, cmds), s) == Route(TableAnswers(Atomics, n, maxSize, cmds), s)
    ensures TableAnswers(Messages, n, maxSize, cmds) == TableAnswers(Atomics, n, maxSize, cmds)
  {
    var t, u := TableAnswers(Messages, n, maxSize, cmds), TableAnswers(Atomics, n, maxSize, cmds);
    TableTags(Messages, n, maxSize, cmds);
    TableTags(Atomics, n, maxSize, cmds);
    AskedTags(cmds, n);
    assert |Tags(t)| == |t| && |Tags(u)| == |u|;
    assert forall k :: 0 <= k < |t| ==> t[k].0 == Asked(cmds)[k].0 by {
      assert forall k :: 0 <= k < |t| ==> Tags(t)[k] == Tags(Asked(cmds))[k];
    }
    forall s: nat ensures Route(t, s) <= Route(u, s) {
      if s >= n { NoRoute(t, n, s); }
    }
    assert Tags(u)[..|t|] == Tags(t);
    SameRoutes(t, u);
  }

  lemma {:induction false} AskedTags(cmds: seq<(nat, Op)>, n: nat)
    requires forall i :: 0 <= i < |cmds| ==> cmds[i].0 < n
    ensures forall i :: 0 <= i < |Asked(cmds)| ==> Asked(cmds)[i].0 < n
  {
    if cmds != [] { AskedTags(cmds[..|cmds| - 1], n); }
  }

  lemma AgreeAt(n: nat, maxSize: nat, st: State, s: nat)
    requires SafeState(n, maxSize, st) && |st.clients| == 1 && s < n && AllServed(st.clients[0])
    ensures var cmds := st.clients[0].cmds;
            && Agree(st.servers[s].part, TableRun(Atomics, n, maxSize, cmds)[s])
            && Route(TableAnswers(Messages, n, maxSize, cmds), s) == Route(TableAnswers(Atomics, n, maxSize, cmds), s)
  {
    var cmds := st.clients[0].cmds;
    ServedTable(n, maxSize, st, s);
    assert TableOk(n, maxSize, st, s);
    TableProject(Messages, n, maxSize, cmds, s);
    TableProject(Atomics, n, maxSize, cmds, s);
    SchemesAgree(maxSize, Route(cmds, s));
  }

  /** With any number of clients each partition and its answers are those of a sequential
      run of some merge of the clients' requests for it, and the merge keeps the order of
      each client: its restriction to a client is what the client has had served so far,
      an initial part of what the client wrote for that server. */
  lemma EachPartitionIsSequential(n: nat, nclients: nat, maxSize: nat, run: seq<State>, steps: seq<Step>, i: nat,
                                  s: nat)
    requires IsRun(n, nclients, maxSize, run, steps) && i < |run| && s < n
    ensures |run[i].servers| == n && |run[i].clients| == nclients
    ensures var log := run[i].servers[s].log;
            && run[i].servers[s].part == Run(Messages, Empty(maxSize), LogOps(log))
            && LogAnswers(log) == Answers(Messages, Empty(maxSize), LogOps(log))
            && (forall c :: 0 <= c < nclients ==>
                  s < |run[i].clients[c].boxes| && OpsOf(Route(log, c)) <= Route(run[i].clients[c].cmds, s)
                  && Route(run[i].clients[c].got, s) <= ValuesOf(Route(log, c)))
  {
    RunSafe(n, nclients, maxSize, run, steps, i);
    ClientsStay(n, nclients, maxSize, run, steps, i);
    LogIsSequential(n, maxSize, run[i], s);
    forall c | 0 <= c < nclients
      ensures s < |run[i].clients[c].boxes|
              && OpsOf(Route(run[i].servers[s].log, c)) <= Route(run[i].clients[c].cmds, s)
              && Route(run[i].clients[c].got, s) <= ValuesOf(Route(run[i].servers[s].log, c))
    {
      LogOfClient(n, maxSize, run[i], s, c);
    }
  }

  lemma LogIsSequential(n: nat, maxSize: nat, st: State, s: nat)
    requires SafeState(n, maxSize, st) && s < n
    ensures |st.servers| == n
    ensures var log := st.servers[s].log;
            st.servers[s].part == Run(Messages, Empty(maxSize), LogOps(log))
            && LogAnswers(log) == Answers(Messages, Empty(maxSize), LogOps(log))
  {
    assert TableOk(n, maxSize, st, s);
  }

  lemma LogOfClient(n: nat, maxSize: nat, st: State, s: nat, c: nat)
    requires SafeState(n, maxSize, st) && s < n && c < |st.clients|
    ensures |st.servers| == n && s < |st.clients[c].boxes|
    ensures OpsOf(Route(st.servers[s].log, c)) <= Route(st.clients[c].cmds, s)
    ensures Route(st.clients[c].got, s) <= ValuesOf(Route(st.servers[s].log, c))
  {
    assert TableOk(n, maxSize, st, s);
    assert Control.ClientOk(n, maxSize, st.clients[c]);
    assert BoxOk(st.clients[c], s);
  }
}
