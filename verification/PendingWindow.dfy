/** The client's window of pending requests (struct pending_data): two fixed buffers,
    wrapping 64-bit indices and one credit counter per server.  The rings are seen from
    the caller's side: sent[s] is what was written for server s, and reply(s, j) is the
    j-th word server s ever pushes for this client. */
module PendingWindow {
  import opened Basics
  import opened Elements
  import opened Routes
  import System

  const MAX := System.MAX_PENDING_SIZE
  const LIMIT := System.MAX_PENDING_PER_SERVER

  /** a - b on unsigned long. */
  function Difference(a: nat, b: nat): nat
    requires a < WRAP && b < WRAP
  {
    if a >= b then a - b else a + WRAP - b
  }

  function Inc(a: nat): nat {
    (a + 1) % WRAP
  }

  lemma WrapFacts(a: nat, b: nat)
    requires b <= a <= b + MAX
    ensures Difference(a % WRAP, b % WRAP) == a - b
    ensures a % WRAP == b % WRAP <==> a == b
    ensures Inc(a % WRAP) == (a + 1) % WRAP
  {
    var q := b / WRAP;
    assert b == q * WRAP + b % WRAP;
    assert a == q * WRAP + (b % WRAP + (a - b));
    if b % WRAP + (a - b) < WRAP {
      assert a % WRAP == b % WRAP + (a - b);
    } else {
      assert a == (q + 1) * WRAP + (b % WRAP + (a - b) - WRAP);
      assert a % WRAP == b % WRAP + (a - b) - WRAP;
    }
  }

  /** Masking a wrapped index is masking the unbounded one. */
  lemma MaskFacts(a: nat)
    ensures a % WRAP % MAX == a % MAX
    ensures Inc(a % WRAP) == (a + 1) % WRAP
  {
    var q := a / WRAP;
    assert WRAP == MAX * 0x1_0000_0000_0000;
    assert a == MAX * (q * 0x1_0000_0000_0000) + a % WRAP;
  }

  /** Which answer of its server request i is waiting for. */
  function Rank(ops: seq<(nat, Op)>, i: nat): nat
    requires i < |ops|
  {
    Count(Tags(ops)[..i], ops[i].0)
  }

  lemma PrefixCount(ops: seq<(nat, Op)>, i: nat, t: nat)
    requires i < |ops|
    ensures Count(Tags(ops)[..i + 1], t) == Count(Tags(ops)[..i], t) + (if ops[i].0 == t then 1 else 0)
  {
    assert Tags(ops)[..i + 1] == Tags(ops)[..i] + [Tags(ops)[i]];
    CountSnoc(Tags(ops)[..i], Tags(ops)[i], t);
  }

  lemma PushOp(ops: seq<(nat, Op)>, x: (nat, Op), t: nat)
    ensures Count(Tags(ops + [x]), t) == Count(Tags(ops), t) + (if x.0 == t then 1 else 0)
    ensures forall i :: 0 <= i <= |ops| ==> Tags(ops + [x])[..i] == Tags(ops)[..i]
  {
    assert Tags(ops + [x]) == Tags(ops) + [x.0];
    CountSnoc(Tags(ops), x.0, t);
  }

  /** The credits of server t when k of the accepted requests have been answered. */
  ghost predicate CreditOk(ops: seq<(nat, Op)>, k: nat, t: nat, count: int, taken: nat, sent: seq<Op>) {
    && k <= |ops|
    && taken == Count(Tags(ops)[..k], t)
    && count + taken == Count(Tags(ops), t)
    && count <= LIMIT
    && sent == Route(ops, t)
  }

  ghost predicate AnswersOk(ops: seq<(nat, Op)>, got: seq<Answer>, reply: (nat, nat) -> Answer) {
    |got| <= |ops| && forall i :: 0 <= i < |got| ==> got[i] == reply(ops[i].0, Rank(ops, i))
  }

  ghost predicate Slots(values: seq<Answer>, servers: seq<nat>, rd: nat, got: seq<Answer>, ops: seq<(nat, Op)>) {
    && |values| == |servers| == MAX
    && rd <= |got| <= |ops| <= rd + MAX
    && (forall i: nat :: rd <= i < |got| ==> values[i % MAX] == got[i])
    && (forall i: nat :: |got| <= i < |ops| ==> servers[i % MAX] == ops[i].0)
  }

  lemma ReadSlots(values: seq<Answer>, servers: seq<nat>, rd: nat, got: seq<Answer>, ops: seq<(nat, Op)>, a: Answer)
    requires Slots(values, servers, rd, got, ops) && |got| < |ops|
    ensures Slots(values[|got| % MAX := a], servers, rd, got + [a], ops)
  {
    forall i: nat | rd <= i < |got| ensures i % MAX != |got| % MAX {
      SlotsDiffer(i, |got|, MAX);
    }
  }

  lemma SubmitSlots(values: seq<Answer>, servers: seq<nat>, rd: nat, got: seq<Answer>, ops: seq<(nat, Op)>,
                    x: (nat, Op))
    requires Slots(values, servers, rd, got, ops) && |ops| < rd + MAX
    ensures Slots(values, servers[|ops| % MAX := x.0], rd, got, ops + [x])
  {
    forall i: nat | |got| <= i < |ops| ensures i % MAX != |ops| % MAX {
      SlotsDiffer(i, |ops|, MAX);
    }
  }

  lemma ReadAnswers(ops: seq<(nat, Op)>, got: seq<Answer>, reply: (nat, nat) -> Answer)
    requires AnswersOk(ops, got, reply) && |got| < |ops|
    ensures var s := ops[|got|].0; AnswersOk(ops, got + [reply(s, Count(Tags(ops)[..|got|], s))], reply)
  {
  }

  ghost predicate CreditsOk(ops: seq<(nat, Op)>, k: nat, n: nat, counts: seq<int>, taken: seq<nat>,
                            sent: seq<seq<Op>>) {
    && n == |counts| == |taken| == |sent|
    && forall t :: 0 <= t < n ==> CreditOk(ops, k, t, counts[t], taken[t], sent[t])
  }

  lemma ReadCredits(ops: seq<(nat, Op)>, k: nat, n: nat, counts: seq<int>, taken: seq<nat>, sent: seq<seq<Op>>)
    requires CreditsOk(ops, k, n, counts, taken, sent) && k < |ops| && ops[k].0 < n
    ensures var s := ops[k].0;
            && taken[s] == Count(Tags(ops)[..k], s)
            && CreditsOk(ops, k + 1, n, counts[s := counts[s] - 1], taken[s := taken[s] + 1], sent)
  {
    forall t | 0 <= t < n ensures CreditOk(ops, k, t, counts[t], taken[t], sent[t])
      && Count(Tags(ops)[..k + 1], t) == Count(Tags(ops)[..k], t) + (if ops[k].0 == t then 1 else 0)
    {
      PrefixCount(ops, k, t);
    }
  }

  ghost predicate WindowOk(ops: seq<(nat, Op)>, got: seq<Answer>, rd: nat, n: nat, reply: (nat, nat) -> Answer,
                           values: seq<Answer>, servers: seq<nat>, counts: seq<int>, taken: seq<nat>,
                           sent: seq<seq<Op>>) {
    && Slots(values, servers, rd, got, ops)
    && (forall i :: 0 <= i < |ops| ==> ops[i].0 < n)
    && AnswersOk(ops, got, reply)
    && CreditsOk(ops, |got|, n, counts, taken, sent)
  }

  lemma SubmitCredits(ops: seq<(nat, Op)>, k: nat, n: nat, counts: seq<int>, taken: seq<nat>, sent: seq<seq<Op>>,
                      x: (nat, Op))
    requires CreditsOk(ops, k, n, counts, taken, sent) && k <= |ops| && x.0 < n && counts[x.0] < LIMIT
    ensures CreditsOk(ops + [x], k, n, counts[x.0 := counts[x.0] + 1], taken, sent[x.0 := sent[x.0] + [x.1]])
  {
    forall t | 0 <= t < n ensures CreditOk(ops, k, t, counts[t], taken[t], sent[t])
      && Count(Tags(ops + [x]), t) == Count(Tags(ops), t) + (if x.0 == t then 1 else 0)
      && Tags(ops + [x])[..k] == Tags(ops)[..k]
      && Route(ops + [x], t) == Route(ops, t) + (if x.0 == t then [x.1] else [])
    {
      PushOp(ops, x, t);
      RouteSnoc(ops, x, t);
    }
  }

  lemma SubmitAnswers(ops: seq<(nat, Op)>, got: seq<Answer>, reply: (nat, nat) -> Answer, x: (nat, Op))
    requires AnswersOk(ops, got, reply)
    ensures AnswersOk(ops + [x], got, reply)
  {
    forall i | 0 <= i < |got| ensures Rank(ops + [x], i) == Rank(ops, i) {
      PushOp(ops, x, 0);
    }
  }

  lemma SubmitAll(ops: seq<(nat, Op)>, got: seq<Answer>, rd: nat, n: nat, reply: (nat, nat) -> Answer, x: (nat, Op),
                  values: seq<Answer>, servers: seq<nat>, counts: seq<int>, taken: seq<nat>, sent: seq<seq<Op>>)
    requires WindowOk(ops, got, rd, n, reply, values, servers, counts, taken, sent)
    requires x.0 < n && counts[x.0] < LIMIT && |ops| < rd + MAX
    ensures WindowOk(ops + [x], got, rd, n, reply, values, servers[|ops| % MAX := x.0],
                     counts[x.0 := counts[x.0] + 1], taken, sent[x.0 := sent[x.0] + [x.1]])
  {
    SubmitCredits(ops, |got|, n, counts, taken, sent, x);
    SubmitAnswers(ops, got, reply, x);
    SubmitSlots(values, servers, rd, got, ops, x);
  }

  lemma ReadAll(ops: seq<(nat, Op)>, got: seq<Answer>, rd: nat, n: nat, reply: (nat, nat) -> Answer,
                values: seq<Answer>, servers: seq<nat>, counts: seq<int>, taken: seq<nat>, sent: seq<seq<Op>>)
    requires WindowOk(ops, got, rd, n, reply, values, servers, counts, taken, sent) && |got| < |ops|
    ensures var s := ops[|got|].0;
            && servers[|got| % MAX] == s < n
            && WindowOk(ops, got + [reply(s, taken[s])], rd, n, reply, values[|got| % MAX := reply(s, taken[s])],
                        servers, counts[s := counts[s] - 1], taken[s := taken[s] + 1], sent)
  {
    var s := ops[|got|].0;
    ReadCredits(ops, |got|, n, counts, taken, sent);
    ReadAnswers(ops, got, reply);
    ReadSlots(values, servers, rd, got, ops, reply(s, taken[s]));
  }

  /** The credits of a server count its entries in the unread part of the window; in
      particular a client with a credit out has something to read. */
  lemma CreditsAreWindow(ops: seq<(nat, Op)>, k: nat, t: nat, count: int, taken: nat, sent: seq<Op>)
    requires CreditOk(ops, k, t, count, taken, sent)
    ensures count == Count(Tags(ops)[k..], t) <= LIMIT
    ensures count > 0 ==> k < |ops|
  {
    CountConcat(Tags(ops)[..k], Tags(ops)[k..], t);
    assert Tags(ops) == Tags(ops)[..k] + Tags(ops)[k..];
    assert k == |ops| ==> Tags(ops)[k..] == [];
  }

  /** Request i is the one its server answers with the word delivered as value i. */
  lemma Matched(ops: seq<(nat, Op)>, got: seq<Answer>, reply: (nat, nat) -> Answer, i: nat)
    requires AnswersOk(ops, got, reply) && i < |got|
    ensures var s, r := ops[i].0, Rank(ops, i);
            got[i] == reply(s, r) && r < |Route(ops, s)| && Route(ops, s)[r] == ops[i].1
  {
    RouteAt(ops, i);
  }

  /** Of the requests for each server the first `flushed` are published and the rest still
      fit the local buffer; and no answer comes before its request is published. */
  ghost predicate PublishedOk(n: nat, taken: seq<nat>, sent: seq<seq<Op>>, flushed: seq<nat>) {
    && n == |taken| == |sent| == |flushed|
    && forall t :: 0 <= t < n ==> PublishedFor(taken[t], sent[t], flushed[t])
  }

  ghost predicate PublishedFor(taken: nat, sent: seq<Op>, flushed: nat) {
    taken <= flushed <= |sent| && System.WordsOf(sent[flushed..]) <= INPB_SIZE
  }

  lemma PublishAll(n: nat, taken: seq<nat>, sent: seq<seq<Op>>, flushed: seq<nat>, s: nat)
    requires PublishedOk(n, taken, sent, flushed) && s < n
    ensures PublishedOk(n, taken, sent, flushed[s := |sent[s]|])
  {
    assert sent[s][|sent[s]|..] == [];
  }

  lemma PublishTaken(n: nat, taken: seq<nat>, sent: seq<seq<Op>>, flushed: seq<nat>, s: nat)
    requires PublishedOk(n, taken, sent, flushed) && s < n && taken[s] < flushed[s]
    ensures PublishedOk(n, taken[s := taken[s] + 1], sent, flushed)
  {
  }

  lemma PublishLater(n: nat, taken: seq<nat>, sent: seq<seq<Op>>, flushed: seq<nat>, s: nat, op: Op)
    requires PublishedOk(n, taken, sent, flushed) && s < n
    requires System.WordsOf(sent[s][flushed[s]..]) + System.Words(op) <= INPB_SIZE
    ensures PublishedOk(n, taken, sent[s := sent[s] + [op]], flushed)
  {
    var rest := sent[s][flushed[s]..];
    assert (sent[s] + [op])[flushed[s]..] == rest + [op];
    assert (rest + [op])[..|rest|] == rest;
  }

  /** The oldest unread request is one whose answer has not been taken. */
  lemma OldestNotTaken(ops: seq<(nat, Op)>, k: nat, t: nat, count: int, taken: nat, sent: seq<Op>)
    requires CreditOk(ops, k, t, count, taken, sent) && k < |ops| && ops[k].0 == t
    ensures taken < |sent|
  {
    PrefixCount(ops, k, t);
    CountConcat(Tags(ops)[..k + 1], Tags(ops)[k + 1..], t);
    assert Tags(ops) == Tags(ops)[..k + 1] + Tags(ops)[k + 1..];
    RouteLength(ops, t);
  }

  class Pending {
    const n: nat
    const reply: (nat, nat) -> Answer
    const early: (nat, nat) -> bool   // is that answer there when it is first looked for?
    const values: array<Answer>
    const servers: array<nat>
    const counts: array<int>
    var taken: seq<nat>
    var sent: seq<seq<Op>>
    var flushed: seq<nat>
    var rdIndex: nat
    var wrIndex: nat
    var pendingIndex: nat
    ghost var ops: seq<(nat, Op)>     // every request accepted
    ghost var got: seq<Answer>        // every answer read
    ghost var rd: nat                 // how many answers the caller has

    ghost predicate IndexOk()
      reads this
    {
      rdIndex == rd % WRAP && wrIndex == |got| % WRAP && pendingIndex == |ops| % WRAP
    }

    ghost predicate Valid()
      reads this, values, servers, counts
    {
      && n > 0 && IndexOk()
      && WindowOk(ops, got, rd, n, reply, values[..], servers[..], counts[..], taken, sent)
      && PublishedOk(n, taken, sent, flushed)
    }

    constructor (n: nat, reply: (nat, nat) -> Answer, early: (nat, nat) -> bool)
      requires n > 0
      ensures Valid() && ops == [] && got == [] && rd == 0 && this.n == n && this.reply == reply && this.early == early
      ensures fresh(values) && fresh(servers) && fresh(counts)
    {
      this.n, this.reply, this.early := n, reply, early;
      values := new Answer[MAX](_ => Null);
      servers := new nat[MAX](_ => 0);
      counts := new int[n](_ => 0);
      taken, sent, flushed := seq(n, _ => 0), seq(n, _ => []), seq(n, _ => 0);
      rdIndex, wrIndex, pendingIndex := 0, 0, 0;
      ops, got, rd := [], [], 0;
    }

    /** The first half of read_next_pending_value: outb_read, and if it finds nothing the
        flush before outb_blocking_read.  Either way the request is published, so the client
        never waits for an answer to a request in its own buffer. */
    method Await(ps: nat)
      requires PublishedOk(n, taken, sent, flushed) && ps < n && taken[ps] < |sent[ps]|
      modifies this`flushed
      ensures PublishedOk(n, taken, sent, flushed) && taken[ps] < flushed[ps]
      ensures forall t :: 0 <= t < n && t != ps ==> flushed[t] == old(flushed)[t]
      ensures flushed[ps] == old(flushed)[ps] || flushed[ps] == |sent[ps]|
    {
      var there := taken[ps] < flushed[ps] && early(ps, taken[ps]);
      if !there {
        PublishAll(n, taken, sent, flushed, ps);
        flushed := flushed[ps := |sent[ps]|];
      }
    }

    /** read_next_pending_value: the oldest unread answer, whichever server owes it.  Its
        request has been published by then. */
    method ReadNext()
      requires Valid() && |got| < |ops|
      modifies this`taken, this`flushed, this`wrIndex, this`got, values, counts
      ensures Valid() && |got| == |old(got)| + 1 && old(got) <= got
      ensures var s := ops[|old(got)|].0; |taken| == |flushed| == n && s < n && old(taken)[s] < flushed[s]
    {
      ReadAll(ops, got, rd, n, reply, values[..], servers[..], counts[..], taken, sent);
      MaskFacts(|got|);
      var slot := wrIndex % MAX;
      var ps := servers[slot];
      OldestNotTaken(ops, |got|, ps, counts[ps], taken[ps], sent[ps]);
      Await(ps);
      PublishTaken(n, taken, sent, flushed, ps);
      Take(ps, slot);
    }

    /** The second half: the word goes into the window and a credit comes back. */
    method Take(ps: nat, slot: nat)
      requires n == counts.Length == |taken| && ps < n && slot < values.Length
      modifies this`taken, this`wrIndex, this`got, values, counts
      ensures values[..] == old(values[..])[slot := reply(ps, old(taken)[ps])]
      ensures counts[..] == old(counts[..])[ps := old(counts[ps]) - 1]
      ensures taken == old(taken)[ps := old(taken)[ps] + 1] && wrIndex == Inc(old(wrIndex))
      ensures got == old(got) + [reply(ps, old(taken)[ps])]
    {
      var val := reply(ps, taken[ps]);
      Assign(values, slot, val);
      Assign(counts, ps, counts[ps] - 1);
      taken := taken[ps := taken[ps] + 1];
      wrIndex := Inc(wrIndex);
      got := got + [val];
    }

    /** smp_hash_lookup and smp_hash_insert.  A full window refuses the request; otherwise
        answers are read until the server has a credit left, and the request is the next
        one its server gets.  The loop ends: a used credit is an entry of the window. */
    method Submit(op: Op) returns (ok: bool)
      requires Valid() && !op.Release?
      modifies this`taken, this`sent, this`flushed, this`wrIndex, this`pendingIndex, this`got, this`ops
      modifies values, servers, counts
      ensures Valid() && old(got) <= got
      ensures ok <==> |old(ops)| < rd + MAX
      ensures ops == if ok then old(ops) + [(System.ServerOf(op.key, n), op)] else old(ops)
      ensures !ok ==> got == old(got)
    {
      WrapFacts(|ops|, rd);
      if Difference(pendingIndex, rdIndex) >= MAX { return false; }
      var s := System.ServerOf(op.key, n);
      while counts[s] >= LIMIT
        invariant Valid() && old(got) <= got && ops == old(ops) && sent == old(sent)
                  && pendingIndex == old(pendingIndex)
        decreases |ops| - |got|
      {
        CreditsAreWindow(ops, |got|, s, counts[s], taken[s], sent[s]);
        ReadNext();
      }
      Write(s, op);
      ok := true;
    }

    /** inpb_write, with the flush it makes when the buffer is full, and the bookkeeping
        after it. */
    method Write(s: nat, op: Op)
      requires Valid() && s < n && counts[s] < LIMIT && |ops| < rd + MAX
      modifies this`sent, this`flushed, this`pendingIndex, this`ops, servers, counts
      ensures Valid() && ops == old(ops) + [(s, op)]
    {
      FlushFor(s, op);
      Append(s, op);
    }

    method Append(s: nat, op: Op)
      requires Valid() && s < n == |sent| == |flushed| && counts[s] < LIMIT && |ops| < rd + MAX
      requires flushed[s] <= |sent[s]| && System.WordsOf(sent[s][flushed[s]..]) + System.Words(op) <= INPB_SIZE
      modifies this`sent, this`pendingIndex, this`ops, servers, counts
      ensures Valid() && ops == old(ops) + [(s, op)]
    {
      SubmitAll(ops, got, rd, n, reply, (s, op), values[..], servers[..], counts[..], taken, sent);
      MaskFacts(|ops|);
      PublishLater(n, taken, sent, flushed, s, op);
      Enqueue(s, op, pendingIndex % MAX);
    }

    /** The flush of inpb_write, made when the request does not fit the local buffer. */
    method FlushFor(s: nat, op: Op)
      requires PublishedOk(n, taken, sent, flushed) && s < n
      modifies this`flushed
      ensures PublishedOk(n, taken, sent, flushed)
      ensures System.WordsOf(sent[s][flushed[s]..]) + System.Words(op) <= INPB_SIZE
    {
      if System.WordsOf(sent[s][flushed[s]..]) + System.Words(op) > INPB_SIZE {
        PublishAll(n, taken, sent, flushed, s);
        flushed := flushed[s := |sent[s]|];
        assert sent[s][flushed[s]..] == [];
      }
    }

    method Enqueue(s: nat, op: Op, slot: nat)
      requires n == counts.Length == |sent| && s < n && slot < servers.Length
      modifies this`sent, this`pendingIndex, this`ops, servers, counts
      ensures servers[..] == old(servers[..])[slot := s]
      ensures counts[..] == old(counts[..])[s := old(counts[s]) + 1]
      ensures sent == old(sent)[s := old(sent)[s] + [op]]
      ensures pendingIndex == Inc(old(pendingIndex)) && ops == old(ops) + [(s, op)]
    {
      Assign(servers, slot, s);
      Assign(counts, s, counts[s] + 1);
      sent := sent[s := sent[s] + [op]];
      pendingIndex := Inc(pendingIndex);
      ops := ops + [(s, op)];
    }

    /** smp_try_get_next: the next value if it has been read already. */
    method TryGetNext() returns (ok: bool, value: Answer)
      requires Valid()
      modifies this`rdIndex, this`rd
      ensures Valid()
      ensures ok <==> old(rd) < |got|
      ensures rd == if ok then old(rd) + 1 else old(rd)
      ensures ok ==> value == reply(ops[old(rd)].0, Rank(ops, old(rd)))
    {
      WrapFacts(|got|, rd);
      if rdIndex == wrIndex { return false, Null; }
      value := Deliver();
      ok := true;
    }

    method Deliver() returns (value: Answer)
      requires Valid() && rd < |got|
      modifies this`rdIndex, this`rd
      ensures Valid() && rd == old(rd) + 1 && value == got[old(rd)]
    {
      MaskFacts(rd);
      value := values[rdIndex % MAX];
      rdIndex := Inc(rdIndex);
      rd := rd + 1;
    }

    /** smp_get_next: the value of the oldest request not delivered yet, in the order of
        the requests, whatever servers they went to.  It is the answer of the server that
        owns the request, to that very request. */
    method GetNext() returns (ok: bool, value: Answer)
      requires Valid()
      modifies this`taken, this`flushed, this`rdIndex, this`wrIndex, this`got, this`rd, values, counts
      ensures Valid() && old(got) <= got
      ensures ok <==> old(rd) < |ops|
      ensures rd == if ok then old(rd) + 1 else old(rd)
      ensures ok ==>
        var (s, op) := ops[old(rd)];
        var r := Rank(ops, old(rd));
        value == reply(s, r) && r < |sent[s]| && sent[s][r] == op
    {
      WrapFacts(|ops|, rd);
      if rdIndex == pendingIndex { return false, Null; }
      WrapFacts(|got|, rd);
      if rdIndex == wrIndex { ReadNext(); }
      Matched(ops, got, reply, rd);
      value := Deliver();
      ok := true;
    }
  }
}
