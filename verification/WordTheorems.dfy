/** What WordSystem inherits from System: the lifetime of elements and the sequential
    meaning of the table, for accesses to single words in any interleaving. */
module WordTheorems {
  import opened Basics
  import opened Elements
  import opened Routes
  import opened System
  import opened WordSystem
  import opened WordRefinement
  import BR = BoxRefinement
  import Control
  import References
  import Safety
  import Serial
  import Callers

  /** The values the caller of a thread has for server s: delivered and not given back. */
  function HeldBy(f: Fine, c: nat, s: nat): multiset<Answer> {
    if c < |f.threads| && s < |f.threads[c].boxes| then f.threads[c].boxes[s].held else multiset{}
  }

  lemma HeldInSystem(n: nat, base: nat, f: Fine, st: State, c: nat, s: nat, r: Answer)
    requires Rel(n, base, f, st) && Shape(n, st) && s < n && r in HeldBy(f, c, s)
    ensures c < |st.clients| && f.workers[s].part == st.servers[s].part && r in References.Tokens(st.clients[c], s)
  {
    assert ThreadRel(n, base, st.clients[c], f.threads[c], f.wires[c]);
  }

  /** In every interleaving of accesses to single words, a value a caller has from a server
      names a live element of that server's partition, and no partition ever touched a freed
      element or found a count below zero. */
  lemma HeldAreLive(n: nat, nclients: nat, maxSize: nat, base: nat, fine: seq<FineStep>, c: nat, s: nat, r: Answer)
    requires n > 0 && nclients > 0 && base < WRAP && s < n && r.Ref?
    ensures var f := After(n, nclients, maxSize, base, fine);
            && s < |f.workers| && !f.workers[s].part.fault
            && (r in HeldBy(f, c, s) ==>
                  r.id in f.workers[s].part.elems && ServerOf(f.workers[s].part.elems[r.id].key, n) == s)
  {
    var f := After(n, nclients, maxSize, base, fine);
    var run, steps := WordsRefineSystem(n, nclients, maxSize, base, fine);
    Safety.ElementLifetime(n, nclients, maxSize, run, steps, |run| - 1, s, r.id);
    if r in HeldBy(f, c, s) {
      HeldInSystem(n, base, f, run[|run| - 1], c, s, r);
      Safety.ReferencesAreLive(n, nclients, maxSize, run, steps, |run| - 1, c, s, r);
    }
  }

  /** And while any caller has a reader's reference to an element, no caller has the
      inserter's. */
  lemma HeldExclude(n: nat, nclients: nat, maxSize: nat, base: nat, fine: seq<FineStep>, c: nat, d: nat, s: nat, id: Id)
    requires n > 0 && nclients > 0 && base < WRAP && s < n
    ensures var f := After(n, nclients, maxSize, base, fine);
            Ref(id, Reader) in HeldBy(f, c, s) ==> Ref(id, Inserter) !in HeldBy(f, d, s)
  {
    var f := After(n, nclients, maxSize, base, fine);
    if Ref(id, Reader) in HeldBy(f, c, s) && Ref(id, Inserter) in HeldBy(f, d, s) {
      var run, steps := WordsRefineSystem(n, nclients, maxSize, base, fine);
      Control.RunOk(n, nclients, maxSize, run, steps, |run| - 1);
      HeldInSystem(n, base, f, run[|run| - 1], c, s, Ref(id, Reader));
      HeldInSystem(n, base, f, run[|run| - 1], d, s, Ref(id, Inserter));
      Safety.PayloadExclusion(n, nclients, maxSize, run, steps, |run| - 1, c, d, s, id);
      assert false;
    }
  }

  /** Nothing is buffered, published, or in the server's hands. */
  ghost predicate Quiet(w: BR.Wire) {
    w.input.local == [] && Served(w)
  }

  /** Whatever has been published has been served. */
  ghost predicate Served(w: BR.Wire) {
    |w.input.flushed| == |w.input.read| && w.server.Polling?
  }

  lemma ServedBox(base: nat, b: Box, w: BR.Wire)
    requires SimBox(w, base, b) && Served(w)
    ensures b.ring == [] && b.hand == []
  {
    var cached :| BR.Simulates(w, base, cached, b);
  }

  lemma QuietBox(base: nat, b: Box, w: BR.Wire)
    requires SimBox(w, base, b) && Quiet(w)
    ensures b.local == [] && b.ring == [] && b.hand == []
  {
    LocalEmpty(w, base, b);
    ServedBox(base, b, w);
  }

  lemma QuietClient(n: nat, base: nat, cl: Client, ws: seq<BR.Wire>)
    requires BoxesRel(n, base, cl, ws) && forall s: nat :: s < n ==> Quiet(ws[s])
    ensures Serial.AllServed(cl)
  {
    forall s: nat | s < n ensures cl.boxes[s].local == [] && cl.boxes[s].ring == [] && cl.boxes[s].hand == [] {
      assert BoxRel(base, cl.pc, cl.pending, cl.boxes[s], ws[s], s);
      QuietBox(base, cl.boxes[s], ws[s]);
    }
  }

  /** With one client, whatever the interleaving of accesses to single words, the values the
      thread has read are the first answers of the sequential table to what it wrote; and
      when the wires are quiet the partitions are those of the sequential table. */
  lemma WordsAreSequential(n: nat, maxSize: nat, base: nat, fine: seq<FineStep>)
    requires n > 0 && base < WRAP
    ensures var f := After(n, 1, maxSize, base, fine);
            && |f.threads| == |f.wires| == 1 && |f.workers| == |f.wires[0]| == n
            && var th := f.threads[0];
               && th.got <= Serial.TableAnswers(Messages, n, maxSize, th.cmds)
               && |Serial.TableAnswers(Messages, n, maxSize, th.cmds)| == |th.got| + |th.pending|
               && ((forall s: nat :: s < n ==> Quiet(f.wires[0][s])) ==>
                     forall s: nat :: s < n ==> f.workers[s].part == Serial.TableRun(Messages, n, maxSize, th.cmds)[s])
  {
    var f := After(n, 1, maxSize, base, fine);
    var run, steps := WordsRefineSystem(n, 1, maxSize, base, fine);
    var st := run[|run| - 1];
    Serial.ScheduleIndependence(n, maxSize, run, steps, |run| - 1);
    assert ThreadRel(n, base, st.clients[0], f.threads[0], f.wires[0]);
    if forall s: nat :: s < n ==> Quiet(f.wires[0][s]) { QuietClient(n, base, st.clients[0], f.wires[0]); }
  }

  // The calls.

  /** The request client c calls for in a step, if the step can be made. */
  function CallMade(n: nat, maxSize: nat, f: Fine, step: FineStep, c: nat): seq<(nat, Op)>
    requires n > 0
  {
    if step.Thread? && step.c == c && CanDo(n, maxSize, f, step) then Callers.CallOf(n, step.act) else []
  }

  function CallsMade(n: nat, nclients: nat, maxSize: nat, base: nat, fine: seq<FineStep>, c: nat): seq<(nat, Op)>
    requires n > 0 && base < WRAP
  {
    if fine == [] then []
    else
      var init := fine[..|fine| - 1];
      CallsMade(n, nclients, maxSize, base, init, c)
      + CallMade(n, maxSize, After(n, nclients, maxSize, base, init), fine[|fine| - 1], c)
  }

  lemma ReachesCarries(n: nat, maxSize: nat, cl: Client, r: Client)
    requires Control.ClientOk(n, maxSize, cl) && Reaches(n, maxSize, cl, r)
    ensures r.cmds + Callers.InHand(n, r.pc) == cl.cmds + Callers.InHand(n, cl.pc)
  {
    if r != cl {
      Callers.GoCarries(n, maxSize, cl);
      if r != Go1(n, cl) { Callers.GoCarries(n, maxSize, Go1(n, cl)); }
    }
  }

  lemma MoveCarries(n: nat, maxSize: nat, cl: Client, a: Act, r: Client)
    requires Control.ClientOk(n, maxSize, cl) && ThreadMove(n, maxSize, cl, a, r)
    ensures r.cmds + Callers.InHand(n, r.pc) == cl.cmds + Callers.InHand(n, cl.pc) + Callers.CallOf(n, a)
  {
    if a == Go { ReachesCarries(n, maxSize, cl, r); } else { Callers.StepCarries(n, maxSize, cl, a); }
  }

  lemma StepCalls(n: nat, maxSize: nat, base: nat, f: Fine, st: State, step: FineStep, c: nat)
    requires Control.SystemOk(n, maxSize, st) && Rel(n, base, f, st) && c < |st.clients|
    ensures var g := Advance(n, maxSize, f, step);
            && c < |f.threads| && c < |g.threads|
            && g.threads[c].cmds + Callers.InHand(n, g.threads[c].pc)
               == f.threads[c].cmds + Callers.InHand(n, f.threads[c].pc) + CallMade(n, maxSize, f, step, c)
  {
    if CanDo(n, maxSize, f, step) && step.Thread? {
      var r := ThreadStep(n, maxSize, base, f, st, step.c, step.act);
      var next := st.(clients := st.clients[step.c := r]);
      ThreadIs(n, base, f, st, c);
      ThreadIs(n, base, WordSystem.Next(n, f, step), next, c);
      if step.c == c { MoveCarries(n, maxSize, st.clients[c], step.act, r); }
    }
  }

  lemma ThreadIs(n: nat, base: nat, f: Fine, st: State, c: nat)
    requires Rel(n, base, f, st) && c < |st.clients|
    ensures c < |f.threads| && f.threads[c] == Local(st.clients[c])
  {
    assert ThreadRel(n, base, st.clients[c], f.threads[c], f.wires[c]);
  }

  /** Word by word too, whatever a client has called for has been written for the right
      server, in the order of the calls, but for the call in progress. */
  lemma {:induction false} CallsAreWritten(n: nat, nclients: nat, maxSize: nat, base: nat, fine: seq<FineStep>, c: nat)
    requires n > 0 && c < nclients && base < WRAP
    ensures var f := After(n, nclients, maxSize, base, fine);
            && c < |f.threads|
            && f.threads[c].cmds + Callers.InHand(n, f.threads[c].pc)
               == CallsMade(n, nclients, maxSize, base, fine, c)
  {
    if fine != [] {
      var init, step := fine[..|fine| - 1], fine[|fine| - 1];
      CallsAreWritten(n, nclients, maxSize, base, init, c);
      var run, steps := WordsRefineSystem(n, nclients, maxSize, base, init);
      Control.RunOk(n, nclients, maxSize, run, steps, |run| - 1);
      Serial.ClientsStay(n, nclients, maxSize, run, steps, |run| - 1);
      StepCalls(n, maxSize, base, After(n, nclients, maxSize, base, init), run[|run| - 1], step, c);
    }
  }

  /** When mp_mark_ready has returned and the server has served what is in the input ring,
      the element is ready or gone, whatever is still in the client's local buffer. */
  lemma MarkedReady(n: nat, nclients: nat, maxSize: nat, base: nat, fine: seq<FineStep>, c: nat, s: nat, id: Id)
    requires n > 0 && c < nclients && base < WRAP && s < n
    requires (s, Release(Ref(id, Inserter))) in CallsMade(n, nclients, maxSize, base, fine, c)
    ensures var f := After(n, nclients, maxSize, base, fine);
            && c < |f.threads| == |f.wires| && s < |f.wires[c]| && s < |f.workers|
            && (f.threads[c].pc.Idle? && Served(f.wires[c][s]) ==> Callers.Ready(f.workers[s].part, id))
  {
    var f := After(n, nclients, maxSize, base, fine);
    CallsAreWritten(n, nclients, maxSize, base, fine, c);
    var run, steps := WordsRefineSystem(n, nclients, maxSize, base, fine);
    Serial.ClientsStay(n, nclients, maxSize, run, steps, |run| - 1);
    assert ThreadRel(n, base, run[|run| - 1].clients[c], f.threads[c], f.wires[c]);
    if f.threads[c].pc.Idle? && Served(f.wires[c][s]) {
      MarkedInSystem(n, nclients, maxSize, base, f, run, steps, c, s, id);
    }
  }

  lemma MarkedInSystem(n: nat, nclients: nat, maxSize: nat, base: nat, f: Fine, run: seq<State>, steps: seq<Step>,
                       c: nat, s: nat, id: Id)
    requires Leads(n, nclients, maxSize, base, f, run, steps) && c < |run[|run| - 1].clients| == nclients && s < n
    requires c < |f.threads| == |f.wires| && s < |f.wires[c]| && s < |f.workers|
    requires f.threads[c].pc.Idle? && Served(f.wires[c][s])
    requires (s, Release(Ref(id, Inserter))) in f.threads[c].cmds
    ensures Callers.Ready(f.workers[s].part, id)
  {
    var i, st := |run| - 1, run[|run| - 1];
    var cl := st.clients[c];
    assert ThreadRel(n, base, cl, f.threads[c], f.wires[c]);
    assert BoxRel(base, cl.pc, cl.pending, cl.boxes[s], f.wires[c][s], s);
    ServedBox(base, cl.boxes[s], f.wires[c][s]);
    Control.RunOk(n, nclients, maxSize, run, steps, i);
    Callers.CallsAreWritten(n, nclients, maxSize, run, steps, i, c);
    assert cl.cmds + [] == cl.cmds;
    Callers.MarkedReady(n, nclients, maxSize, run, steps, i, i, c, s, id);
  }
}
