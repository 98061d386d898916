/** Anderson's array lock as alock.c has it, one step per atomic access, for any
    schedule of any number of threads. */
module AndersonLock {
  import opened Basics

  /** Where a thread is.  `me` and `slot` are its local variables. */
  datatype Pc =
    | Idle                     // outside; its next step is the fetch-and-add of anderson_acquire
    | Subtract(me: nat)        // about to take nthread off the ticket counter
    | Spin(slot: nat)          // reading has_lock[slot]
    | Clear(slot: nat)         // has seen it set and is about to reset it
    | Held(slot: nat)          // anderson_acquire has returned

  /** The lock and its threads.  `arrivals`, `grants` and `released` are history: who drew
      a ticket, who got the lock, and how many have released it. */
  datatype State = State(
    hasLock: seq<bool>, nextSlot: int, threads: seq<Pc>,
    arrivals: seq<nat>, grants: seq<nat>, released: nat)

  /** anderson_init; the slots other than 0 are zero. */
  function Init(n: nat, m: nat): State
    requires n > 0
  {
    State(seq(n, i => i == 0), 0, seq(m, _ => Idle), [], [], 0)
  }

  /** One step of thread t.  A spinning thread that reads zero stays where it is. */
  function Step(st: State, t: nat): State
    requires |st.hasLock| > 0 && st.nextSlot >= 0
  {
    var n := |st.hasLock|;
    if t >= |st.threads| then st else
      match st.threads[t]
      case Idle =>
        var me := st.nextSlot;
        var pc := if me > 0 && me % n == 0 then Subtract(me) else Spin(me % n);
        st.(nextSlot := me + 1, threads := st.threads[t := pc], arrivals := st.arrivals + [t])
      case Subtract(me) =>
        if st.nextSlot < n then st
        else st.(nextSlot := st.nextSlot - n, threads := st.threads[t := Spin(me % n)])
      case Spin(slot) =>
        if slot < n && st.hasLock[slot] then st.(threads := st.threads[t := Clear(slot)]) else st
      case Clear(slot) =>
        if slot >= n then st
        else st.(hasLock := st.hasLock[slot := false], threads := st.threads[t := Held(slot)],
                 grants := st.grants + [t])
      case Held(slot) =>
        st.(hasLock := st.hasLock[(slot + 1) % n := true], threads := st.threads[t := Idle],
            released := st.released + 1)
  }

  /** The state after a schedule: any sequence of thread numbers. */
  function After(n: nat, m: nat, schedule: seq<nat>): (st: State)
    requires n > 0
    ensures |st.hasLock| == n && |st.threads| == m && st.nextSlot >= 0
  {
    if schedule == [] then Init(n, m) else Step(After(n, m, schedule[..|schedule| - 1]), schedule[|schedule| - 1])
  }

  ghost predicate MutualExclusion(st: State) {
    forall t, u :: 0 <= t < |st.threads| && 0 <= u < |st.threads| && st.threads[t].Held? && st.threads[u].Held? ==>
      t == u
  }

  // The invariant for at most n contenders.

  /** Threads with a ticket whose release has not happened, in ticket order. */
  ghost function Queue(st: State): seq<nat> {
    if st.released <= |st.arrivals| then st.arrivals[st.released..] else []
  }

  function SlotOf(pc: Pc, n: nat): nat
    requires n > 0
  {
    match pc
    case Idle => 0
    case Subtract(me) => me % n
    case Spin(slot) => slot
    case Clear(slot) => slot
    case Held(slot) => slot
  }

  ghost predicate QueueOk(st: State) {
    var n, q := |st.hasLock|, Queue(st);
    && n > 0 && st.released <= |st.arrivals| && Distinct(q)
    && (forall i :: 0 <= i < |q| ==> q[i] < |st.threads| && !st.threads[q[i]].Idle?)
    && (forall t :: 0 <= t < |st.threads| && !st.threads[t].Idle? ==> t in q)
    && (forall i :: 0 <= i < |q| ==> SlotOf(st.threads[q[i]], n) == (st.released + i) % n)
    && (forall i :: 1 <= i < |q| ==> st.threads[q[i]].Subtract? || st.threads[q[i]].Spin?)
  }

  ghost predicate HolderIn(st: State) {
    var q := Queue(st);
    q != [] && q[0] < |st.threads| && st.threads[q[0]].Held?
  }

  /** Exactly one token: the slot of the oldest ticket is set, or its thread holds the lock. */
  ghost predicate TokenOk(st: State) {
    var n := |st.hasLock|;
    && n > 0
    && (forall j :: 0 <= j < n ==> (st.hasLock[j] <==> j == st.released % n && !HolderIn(st)))
    && st.released + (if HolderIn(st) then 1 else 0) <= |st.arrivals|
    && st.grants == st.arrivals[..st.released + (if HolderIn(st) then 1 else 0)]
  }

  /** The ticket counter: congruent to the number of tickets drawn, and past nthread only
      while one thread, which drew nthread itself, has still to subtract. */
  ghost predicate CounterOk(st: State) {
    var n, q := |st.hasLock|, Queue(st);
    && n > 0
    && st.nextSlot % n == |st.arrivals| % n
    && ((forall i :: 0 <= i < |q| && q[i] < |st.threads| ==> !st.threads[q[i]].Subtract?) ==> 0 <= st.nextSlot <= n)
    && (forall i :: 0 <= i < |q| && q[i] < |st.threads| && st.threads[q[i]].Subtract? ==>
          st.threads[q[i]] == Subtract(n) && st.nextSlot == n + |q| - i)
  }

  ghost predicate Inv(st: State) {
    QueueOk(st) && TokenOk(st) && CounterOk(st) && |st.threads| <= |st.hasLock|
  }

  // Arithmetic of residues.

  lemma ModUnique(a: nat, i: nat, n: nat)
    requires n > 0 && i < n && (a + i) % n == a % n
    ensures i == 0
  {
    var q := (a + i) / n - a / n;
    assert a + i == n * ((a + i) / n) + (a + i) % n && a == n * (a / n) + a % n;
    assert i == n * q;
    Multiple(n, q);
  }

  lemma ModShift(a: int, b: int, k: int, n: nat)
    requires n > 0 && b == a + n * k
    ensures b % n == a % n
  {
    assert a == n * (a / n) + a % n;
    assert b == n * (a / n + k) + a % n;
    ModIs(b, n, a / n + k, a % n);
  }

  lemma ModAdd(a: int, b: int, k: nat, n: nat)
    requires n > 0 && a % n == b % n
    ensures (a + k) % n == (b + k) % n
  {
    assert a == n * (a / n) + a % n && b == n * (b / n) + b % n;
    assert b + k == a + k + n * (b / n - a / n);
    ModShift(a + k, b + k, b / n - a / n, n);
  }

  lemma NextResidue(a: nat, n: nat)
    requires n > 0
    ensures (a % n + 1) % n == (a + 1) % n
  {
    ModIs(a % n, n, 0, a % n);
    ModAdd(a % n, a, 1, n);
  }

  lemma {:induction false} DistinctBound(q: seq<nat>, m: nat)
    requires Distinct(q) && forall i :: 0 <= i < |q| ==> q[i] < m
    ensures |q| <= m
    decreases m
  {
    if q != [] {
      if i :| 0 <= i < |q| && q[i] == m - 1 {
        var r := q[..i] + q[i + 1..];
        assert forall j :: 0 <= j < |r| ==> r[j] == q[if j < i then j else j + 1];
        DistinctBound(r, m - 1);
      } else {
        assert q[0] < m;
        DistinctBound(q, m - 1);
      }
    }
  }

  lemma QueueShort(st: State)
    requires QueueOk(st) && |st.threads| <= |st.hasLock|
    ensures |Queue(st)| <= |st.hasLock|
  {
    DistinctBound(Queue(st), |st.threads|);
  }

  lemma RoomForOneMore(st: State, t: nat)
    requires Inv(st) && t < |st.threads| && st.threads[t].Idle?
    ensures |Queue(st)| < |st.hasLock| && t !in Queue(st)
  {
    var q := Queue(st) + [t];
    DistinctBound(q, |st.threads|);
  }

  ghost predicate Draws(st: State, r: State, t: nat) {
    && QueueOk(st) && t < |st.threads| && st.threads[t].Idle? && t !in Queue(st)
    && |r.hasLock| == |st.hasLock| && |r.threads| == |st.threads| && r.threads == st.threads[t := r.threads[t]]
    && (r.threads[t].Subtract? || r.threads[t].Spin?)
    && SlotOf(r.threads[t], |st.hasLock|) == |st.arrivals| % |st.hasLock|
    && r.released == st.released && r.arrivals == st.arrivals + [t]
  }

  lemma LongerQueue(st: State, r: State, t: nat)
    requires Draws(st, r, t)
    ensures Queue(r) == Queue(st) + [t] && Distinct(Queue(r))
    ensures forall i :: 0 <= i < |Queue(st)| ==> Queue(r)[i] == Queue(st)[i] && Queue(r)[i] != t
  {
    assert Queue(r) == Queue(st) + [t];
  }

  lemma AcquirePlaces(st: State, r: State, t: nat)
    requires Draws(st, r, t)
    ensures forall i :: 0 <= i < |Queue(r)| ==>
              SlotOf(r.threads[Queue(r)[i]], |r.hasLock|) == (r.released + i) % |r.hasLock|
    ensures forall i :: 1 <= i < |Queue(r)| ==> r.threads[Queue(r)[i]].Subtract? || r.threads[Queue(r)[i]].Spin?
  {
    LongerQueue(st, r, t);
    var q, n := Queue(st), |st.hasLock|;
    forall i | 0 <= i < |Queue(r)| ensures SlotOf(r.threads[Queue(r)[i]], n) == (r.released + i) % n {
      if i < |q| {
        assert Queue(r)[i] == q[i] && SlotOf(st.threads[q[i]], n) == (st.released + i) % n;
      } else {
        assert Queue(r)[i] == t && r.released + i == |st.arrivals|;
      }
    }
    forall i | 1 <= i < |Queue(r)| ensures r.threads[Queue(r)[i]].Subtract? || r.threads[Queue(r)[i]].Spin? {
      if i < |q| { assert Queue(r)[i] == q[i]; }
    }
  }

  lemma AcquireQueue(st: State, t: nat)
    requires QueueOk(st) && t < |st.threads| && st.threads[t].Idle? && t !in Queue(st)
    requires st.nextSlot >= 0 && st.nextSlot % |st.hasLock| == |st.arrivals| % |st.hasLock|
    ensures QueueOk(Step(st, t)) && Queue(Step(st, t)) == Queue(st) + [t]
  {
    var r := Step(st, t);
    StepDraws(st, t);
    LongerQueue(st, r, t);
    DrawnQueue(st, r, t);
  }

  lemma StepDraws(st: State, t: nat)
    requires QueueOk(st) && t < |st.threads| && st.threads[t].Idle? && t !in Queue(st)
    requires st.nextSlot >= 0 && st.nextSlot % |st.hasLock| == |st.arrivals| % |st.hasLock|
    ensures Draws(st, Step(st, t), t)
  {
  }

  lemma DrawnMembers(st: State, r: State, t: nat)
    requires Draws(st, r, t)
    ensures forall i :: 0 <= i < |Queue(r)| ==> Queue(r)[i] < |r.threads| && !r.threads[Queue(r)[i]].Idle?
    ensures forall u :: 0 <= u < |r.threads| && !r.threads[u].Idle? ==> u in Queue(r)
  {
    LongerQueue(st, r, t);
    forall u | 0 <= u < |r.threads| && !r.threads[u].Idle? ensures u in Queue(r) {
      if u != t { assert !st.threads[u].Idle? && u in Queue(st); }
    }
  }

  lemma DrawnQueue(st: State, r: State, t: nat)
    requires Draws(st, r, t)
    ensures QueueOk(r)
  {
    LongerQueue(st, r, t);
    DrawnMembers(st, r, t);
    AcquirePlaces(st, r, t);
  }

  /** The value a thread draws: nthread exactly when it has to subtract. */
  lemma DrawnTicket(st: State)
    requires CounterOk(st) && |Queue(st)| < |st.hasLock| && QueueOk(st)
    ensures var n, me := |st.hasLock|, st.nextSlot;
            && 0 <= me < 2 * n
            && (me > 0 && me % n == 0 <==> me == n)
            && (me >= n && me != n <==> exists i :: 0 <= i < |Queue(st)| && st.threads[Queue(st)[i]].Subtract?)
  {
    var n, q, me := |st.hasLock|, Queue(st), st.nextSlot;
    if i :| 0 <= i < |q| && st.threads[q[i]].Subtract? {
      assert n < me < 2 * n;
      ModIs(me, n, 1, me - n);
    } else {
      if me < n { ModIs(me, n, 0, me); } else { ModIs(n, n, 1, 0); }
    }
  }

  lemma AcquireCounter(st: State, t: nat)
    requires CounterOk(st) && QueueOk(st) && |Queue(st)| < |st.hasLock|
    requires t < |st.threads| && st.threads[t].Idle? && t !in Queue(st) && Queue(Step(st, t)) == Queue(st) + [t]
    ensures CounterOk(Step(st, t))
  {
    var n, q, r := |st.hasLock|, Queue(st), Step(st, t);
    DrawnTicket(st);
    ModAdd(st.nextSlot, |st.arrivals|, 1, n);
    assert r.threads == st.threads[t := r.threads[t]];
    assert forall i :: 0 <= i < |q| ==> Queue(r)[i] == q[i] && q[i] != t;
    assert Queue(r)[|q|] == t;
  }

  lemma AcquireOk(st: State, t: nat)
    requires Inv(st) && t < |st.threads| && st.threads[t].Idle?
    ensures Inv(Step(st, t))
  {
    RoomForOneMore(st, t);
    AcquireQueue(st, t);
    AcquireCounter(st, t);
    AcquireToken(st, t);
  }

  lemma AcquireToken(st: State, t: nat)
    requires TokenOk(st) && st.nextSlot >= 0 && t < |st.threads| && st.threads[t].Idle? && t !in Queue(st)
    requires Queue(Step(st, t)) == Queue(st) + [t]
    ensures TokenOk(Step(st, t))
  {
    var r := Step(st, t);
    assert !r.threads[t].Held? && r.threads == st.threads[t := r.threads[t]];
    assert HolderIn(r) == HolderIn(st);
  }

  /** Steps inside the lock keep the queue; `i` is the thread's place in it. */
  lemma PlaceOf(st: State, t: nat) returns (i: nat)
    requires QueueOk(st) && t < |st.threads| && !st.threads[t].Idle?
    ensures i < |Queue(st)| && Queue(st)[i] == t
    ensures forall j :: 0 <= j < |Queue(st)| && j != i ==> Queue(st)[j] != t
    ensures !st.threads[t].Subtract? && !st.threads[t].Spin? ==> i == 0
  {
    i :| 0 <= i < |Queue(st)| && Queue(st)[i] == t;
  }

  lemma ChangeInside(st: State, t: nat, pc: Pc, i: nat)
    requires QueueOk(st) && i < |Queue(st)| && Queue(st)[i] == t && t < |st.threads| && !st.threads[t].Idle?
    requires !pc.Idle? && SlotOf(pc, |st.hasLock|) == SlotOf(st.threads[t], |st.hasLock|)
    requires i > 0 ==> pc.Subtract? || pc.Spin?
    ensures var r := st.(threads := st.threads[t := pc]); QueueOk(r) && Queue(r) == Queue(st)
  {
    var q, r := Queue(st), st.(threads := st.threads[t := pc]);
    OnlyPlace(q, i);
    assert Queue(r) == q;
    forall j | 0 <= j < |q| && j != i ensures r.threads[q[j]] == st.threads[q[j]] {
    }
    assert r.threads[q[i]] == pc;
    forall u | 0 <= u < |r.threads| && !r.threads[u].Idle? ensures u in q {
      assert !st.threads[u].Idle?;
    }
  }

  lemma OnlyPlace(q: seq<nat>, i: nat)
    requires Distinct(q) && i < |q|
    ensures forall j :: 0 <= j < |q| && j != i ==> q[j] != q[i]
  {
  }

  lemma SubtractOk(st: State, t: nat)
    requires Inv(st) && t < |st.threads| && st.threads[t].Subtract?
    ensures Inv(Step(st, t))
  {
    var n, r := |st.hasLock|, Step(st, t);
    var i := PlaceOf(st, t);
    QueueShort(st);
    ChangeInside(st, t, Spin(st.threads[t].me % n), i);
    SubtractCounter(st, t, i);
    assert r.threads == st.threads[t := Spin(st.threads[t].me % n)] && Queue(r) == Queue(st);
    assert HolderIn(r) == HolderIn(st);
  }

  lemma SubtractCounter(st: State, t: nat, i: nat)
    requires CounterOk(st) && QueueOk(st) && |Queue(st)| <= |st.hasLock| && t < |st.threads| && st.threads[t].Subtract?
    requires i < |Queue(st)| && Queue(st)[i] == t && forall j :: 0 <= j < |Queue(st)| && j != i ==> Queue(st)[j] != t
    ensures st.nextSlot >= |st.hasLock| && CounterOk(Step(st, t))
  {
    var n, q, r := |st.hasLock|, Queue(st), Step(st, t);
    assert st.threads[q[i]] == Subtract(n) && st.nextSlot == n + |q| - i;
    assert Queue(r) == q;
    assert r.nextSlot == st.nextSlot + n * -1;
    ModShift(st.nextSlot, r.nextSlot, -1, n);
    forall j | 0 <= j < |q| ensures !r.threads[q[j]].Subtract? {
      assert st.threads[q[j]].Subtract? ==> st.nextSlot == n + |q| - j;
    }
  }

  lemma SpinOk(st: State, t: nat)
    requires Inv(st) && t < |st.threads| && st.threads[t].Spin?
    ensures Inv(Step(st, t))
  {
    var n, q, r := |st.hasLock|, Queue(st), Step(st, t);
    var i := PlaceOf(st, t);
    var slot := st.threads[t].slot;
    if slot < n && st.hasLock[slot] {
      assert i == 0 by { QueueShort(st); ModUnique(st.released, i, n); }
      ChangeInside(st, t, Clear(slot), i);
      assert HolderIn(r) == HolderIn(st);
      assert Queue(r) == q;
    }
  }

  lemma ClearToken(st: State, r: State, t: nat)
    requires TokenOk(st) && !HolderIn(st) && HolderIn(r) && st.released < |st.arrivals| && st.arrivals[st.released] == t
    requires r.hasLock == st.hasLock[st.released % |st.hasLock| := false]
    requires r.released == st.released && r.arrivals == st.arrivals && r.grants == st.grants + [t]
    ensures TokenOk(r)
  {
    PrefixSnoc(st.arrivals, st.released);
  }

  lemma ClearPlace(st: State, t: nat)
    requires QueueOk(st) && t < |st.threads| && st.threads[t].Clear?
    ensures Queue(st) != [] && Queue(st)[0] == t && st.released < |st.arrivals| && st.arrivals[st.released] == t
    ensures st.threads[t].slot == st.released % |st.hasLock|
  {
    var i := PlaceOf(st, t);
    assert SlotOf(st.threads[t], |st.hasLock|) == (st.released + i) % |st.hasLock|;
  }

  lemma ClearQueue(st: State, r: State, t: nat)
    requires QueueOk(st) && t < |st.threads| && st.threads[t].Clear? && Queue(st) != [] && Queue(st)[0] == t
    requires |r.hasLock| == |st.hasLock| && r.threads == st.threads[t := Held(st.threads[t].slot)]
    requires r.arrivals == st.arrivals && r.released == st.released
    ensures QueueOk(r) && Queue(r) == Queue(st) && HolderIn(r) && !HolderIn(st)
  {
    ChangeInside(st, t, Held(st.threads[t].slot), 0);
  }

  lemma ClearOk(st: State, t: nat)
    requires Inv(st) && t < |st.threads| && st.threads[t].Clear?
    ensures Inv(Step(st, t))
  {
    var r := Step(st, t);
    ClearPlace(st, t);
    ClearQueue(st, r, t);
    ClearCounter(st, r, t, st.threads[t].slot);
    ClearToken(st, r, t);
  }

  lemma ClearCounter(st: State, r: State, t: nat, slot: nat)
    requires CounterOk(st) && t < |st.threads| && st.threads[t].Clear? && Queue(r) == Queue(st)
    requires |r.hasLock| == |st.hasLock| && r.threads == st.threads[t := Held(slot)]
    requires r.nextSlot == st.nextSlot && r.arrivals == st.arrivals
    ensures CounterOk(r)
  {
  }

  ghost predicate Releases(st: State, r: State, t: nat) {
    && QueueOk(st) && t < |st.threads| && st.threads[t].Held? && Queue(st) != [] && Queue(st)[0] == t
    && |r.hasLock| == |st.hasLock| && r.threads == st.threads[t := Idle]
    && r.arrivals == st.arrivals && r.released == st.released + 1 && r.grants == st.grants && r.nextSlot == st.nextSlot
  }

  lemma ShiftedQueue(st: State, r: State, t: nat)
    requires Releases(st, r, t)
    ensures Queue(r) == Queue(st)[1..]
    ensures forall k :: 0 <= k < |Queue(r)| ==> Queue(r)[k] == Queue(st)[k + 1] && Queue(r)[k] != t
    ensures Distinct(Queue(r))
  {
    assert forall k :: 0 <= k < |Queue(r)| ==> Queue(r)[k] == Queue(st)[k + 1];
  }

  lemma ReleaseSlots(st: State, r: State, t: nat)
    requires Releases(st, r, t)
    ensures forall k :: 0 <= k < |Queue(r)| ==>
              SlotOf(r.threads[Queue(r)[k]], |r.hasLock|) == (r.released + k) % |r.hasLock|
  {
    ShiftedQueue(st, r, t);
    forall k | 0 <= k < |Queue(r)|
      ensures SlotOf(r.threads[Queue(r)[k]], |r.hasLock|) == (r.released + k) % |r.hasLock|
    {
      assert SlotOf(st.threads[Queue(st)[k + 1]], |st.hasLock|) == (st.released + (k + 1)) % |st.hasLock|;
    }
  }

  lemma ReleaseMembers(st: State, r: State, t: nat)
    requires Releases(st, r, t)
    ensures forall u :: 0 <= u < |r.threads| && !r.threads[u].Idle? ==> u in Queue(r)
  {
    forall u | 0 <= u < |r.threads| && !r.threads[u].Idle? ensures u in Queue(r) {
      assert u != t && u in Queue(st);
      var i :| 0 <= i < |Queue(st)| && Queue(st)[i] == u;
      ShiftedQueue(st, r, t);
      assert Queue(r)[i - 1] == u;
    }
  }

  lemma ReleaseQueue(st: State, r: State, t: nat)
    requires Releases(st, r, t)
    ensures QueueOk(r)
  {
    ShiftedQueue(st, r, t);
    ReleaseSlots(st, r, t);
    ReleaseMembers(st, r, t);
  }

  lemma ReleaseToken(st: State, r: State, t: nat)
    requires Releases(st, r, t) && TokenOk(st)
    requires r.hasLock == st.hasLock[(st.threads[t].slot + 1) % |st.hasLock| := true]
    ensures TokenOk(r)
  {
    var n := |st.hasLock|;
    ShiftedQueue(st, r, t);
    NextResidue(st.released, n);
    assert SlotOf(st.threads[Queue(st)[0]], n) == (st.released + 0) % n;
    assert HolderIn(st);
    if Queue(r) != [] {
      var u := Queue(st)[1];
      assert u == Queue(r)[0] && (st.threads[u].Subtract? || st.threads[u].Spin?);
    }
    assert !HolderIn(r);
  }

  lemma ReleaseCounter(st: State, r: State, t: nat)
    requires Releases(st, r, t) && CounterOk(st)
    ensures CounterOk(r)
  {
    ShiftedQueue(st, r, t);
    var q := Queue(st);
    assert forall i :: 1 <= i < |q| ==> q[i] == Queue(r)[i - 1] && r.threads[q[i]] == st.threads[q[i]];
  }

  lemma ReleaseOk(st: State, t: nat)
    requires Inv(st) && t < |st.threads| && st.threads[t].Held?
    ensures Inv(Step(st, t))
  {
    var i := PlaceOf(st, t);
    var r := Step(st, t);
    assert Releases(st, r, t);
    ReleaseQueue(st, r, t);
    ReleaseToken(st, r, t);
    ReleaseCounter(st, r, t);
  }

  lemma StepOk(st: State, t: nat)
    requires Inv(st)
    ensures Inv(Step(st, t))
  {
    if t < |st.threads| {
      match st.threads[t]
      case Idle => AcquireOk(st, t);
      case Subtract(_) => SubtractOk(st, t);
      case Spin(_) => SpinOk(st, t);
      case Clear(_) => ClearOk(st, t);
      case Held(_) => ReleaseOk(st, t);
    }
  }

  lemma {:induction false} RunOk(n: nat, m: nat, schedule: seq<nat>)
    requires 0 < n && m <= n
    ensures Inv(After(n, m, schedule))
  {
    if schedule == [] {
      assert Queue(Init(n, m)) == [];
      ModIs(0, n, 0, 0);
    } else {
      RunOk(n, m, schedule[..|schedule| - 1]);
      StepOk(After(n, m, schedule[..|schedule| - 1]), schedule[|schedule| - 1]);
    }
  }

  /** With at most nthread contenders every schedule keeps at most one holder, grants the
      lock in ticket order, keeps exactly one token, and keeps the ticket counter between
      0 and 2 * nthread although it is never reset. */
  lemma FairMutualExclusion(n: nat, m: nat, schedule: seq<nat>)
    requires 0 < n && m <= n
    ensures var st := After(n, m, schedule);
            && MutualExclusion(st)
            && st.grants <= st.arrivals
            && TokenOk(st)
            && 0 <= st.nextSlot <= 2 * n && st.nextSlot % n == |st.arrivals| % n
  {
    RunOk(n, m, schedule);
    var st := After(n, m, schedule);
    QueueShort(st);
    forall t, u | 0 <= t < m && 0 <= u < m && st.threads[t].Held? && st.threads[u].Held? ensures t == u {
      var i :| 0 <= i < |Queue(st)| && Queue(st)[i] == t;
      var j :| 0 <= j < |Queue(st)| && Queue(st)[j] == u;
      assert i == 0 && j == 0;
    }
  }

  /** No deadlock: the thread with the oldest ticket always moves when it is scheduled. */
  lemma OldestTicketMoves(n: nat, m: nat, schedule: seq<nat>)
    requires 0 < n && m <= n
    ensures var st := After(n, m, schedule);
            Queue(st) != [] ==> Queue(st)[0] < m && Step(st, Queue(st)[0]).threads != st.threads
  {
    RunOk(n, m, schedule);
    var st := After(n, m, schedule);
    QueueShort(st);
    if Queue(st) != [] {
      var t := Queue(st)[0];
      var r := Step(st, t);
      assert SlotOf(st.threads[t], n) == (st.released + 0) % n;
      assert r.threads[t] != st.threads[t];
    }
  }

  // More contenders than nthread break it.

  function Numbers(k: nat): seq<nat> {
    if k == 0 then [] else Numbers(k - 1) + [k - 1]
  }

  function Crowd(n: nat, m: nat, k: nat): State
    requires k <= n < m && n > 0
  {
    State(seq(n, i => i == 0), k, seq(m, i requires 0 <= i => if i < k then Spin(i) else Idle), Numbers(k), [], 0)
  }

  lemma AfterSnoc(n: nat, m: nat, s: seq<nat>, t: nat)
    requires n > 0
    ensures After(n, m, s + [t]) == Step(After(n, m, s), t)
  {
    assert (s + [t])[..|s + [t]| - 1] == s;
  }

  lemma CrowdStep(n: nat, m: nat, k: nat)
    requires 0 < k <= n < m
    ensures Step(Crowd(n, m, k - 1), k - 1) == Crowd(n, m, k)
  {
    var c := Crowd(n, m, k - 1);
    ModIs(k - 1, n, 0, k - 1);
    var r := Step(c, k - 1);
    assert r == c.(nextSlot := k, threads := c.threads[k - 1 := Spin(k - 1)], arrivals := c.arrivals + [k - 1]);
    assert r.threads == Crowd(n, m, k).threads;
  }

  lemma NoCrowd(n: nat, m: nat)
    requires 0 < n < m
    ensures After(n, m, Numbers(0)) == Crowd(n, m, 0)
  {
    assert Init(n, m).threads == Crowd(n, m, 0).threads;
    assert Init(n, m).hasLock == Crowd(n, m, 0).hasLock;
  }

  lemma {:induction false} CrowdReached(n: nat, m: nat, k: nat)
    requires k <= n < m && n > 0
    ensures After(n, m, Numbers(k)) == Crowd(n, m, k)
  {
    if k == 0 {
      NoCrowd(n, m);
    } else {
      CrowdReached(n, m, k - 1);
      AfterSnoc(n, m, Numbers(k - 1), k - 1);
      assert Numbers(k) == Numbers(k - 1) + [k - 1];
      CrowdStep(n, m, k);
    }
  }

  /** Two threads that both wait on slot 0 while it is set both get the lock. */
  lemma BothPass(n: nat, m: nat, s: seq<nat>, u: nat)
    requires 0 < n && 0 < u < m && var st := After(n, m, s);
             st.threads[0] == Spin(0) && st.threads[u] == Spin(0) && st.hasLock[0]
    ensures !MutualExclusion(After(n, m, s + [0] + [u] + [0] + [u]))
  {
    AfterSnoc(n, m, s, 0);
    AfterSnoc(n, m, s + [0], u);
    AfterSnoc(n, m, s + [0] + [u], 0);
    AfterSnoc(n, m, s + [0] + [u] + [0], u);
    var st := After(n, m, s + [0] + [u] + [0] + [u]);
    assert st.threads[0].Held? && st.threads[u].Held?;
  }

  /** With one contender more, the last one draws nthread and joins the first on slot 0. */
  lemma CrowdBreaksExclusion(n: nat, m: nat) returns (schedule: seq<nat>)
    requires 0 < n < m
    ensures !MutualExclusion(After(n, m, schedule))
  {
    var s := Numbers(n);
    CrowdReached(n, m, n);
    ModIs(n, n, 1, 0);
    AfterSnoc(n, m, s, n);
    AfterSnoc(n, m, s + [n], n);
    BothPass(n, m, s + [n] + [n], n);
    schedule := s + [n] + [n] + [0] + [n] + [0] + [n];
  }

  /** The lock excludes under every schedule exactly when there are no more contenders
      than slots.  A partition's lock has nservers slots. */
  lemma ExclusionIffEnoughSlots(n: nat, m: nat)
    requires n > 0
    ensures (forall schedule :: MutualExclusion(After(n, m, schedule))) <==> m <= n
  {
    if m <= n {
      forall schedule ensures MutualExclusion(After(n, m, schedule)) { FairMutualExclusion(n, m, schedule); }
    } else {
      var schedule := CrowdBreaksExclusion(n, m);
      assert !MutualExclusion(After(n, m, schedule));
    }
  }

  // Slots that are not clear at the start.  anderson_init sets slot 0 and writes no other.

  function RunFrom(slots: seq<bool>, m: nat, schedule: seq<nat>): (st: State)
    requires |slots| > 0
    ensures |st.hasLock| == |slots| && |st.threads| == m && st.nextSlot >= 0
  {
    if schedule == [] then State(slots, 0, seq(m, _ => Idle), [], [], 0)
    else Step(RunFrom(slots, m, schedule[..|schedule| - 1]), schedule[|schedule| - 1])
  }

  lemma {:induction false} ClearRun(n: nat, m: nat, schedule: seq<nat>)
    requires n > 0
    ensures RunFrom(seq(n, i => i == 0), m, schedule) == After(n, m, schedule)
  {
    if schedule != [] { ClearRun(n, m, schedule[..|schedule| - 1]); }
  }

  /** Thread 0 has acquired and released the lock k times, alone. */
  ghost predicate Cycled(st: State, slots: seq<bool>, k: nat) {
    && |st.hasLock| == |slots| && k < |slots| && st.nextSlot == k && st.hasLock[k]
    && (forall i :: k < i < |slots| ==> st.hasLock[i] == slots[i])
    && (forall t :: 0 <= t < |st.threads| ==> st.threads[t].Idle?)
  }

  lemma AcquireAlone(st: State, slots: seq<bool>, k: nat) returns (r: State)
    requires Cycled(st, slots, k) && |st.threads| > 0
    ensures r == Step(Step(Step(st, 0), 0), 0)
    ensures r.threads == st.threads[0 := Held(k)] && r.nextSlot == k + 1 && r.hasLock == st.hasLock[k := false]
  {
    ModIs(k, |slots|, 0, k);
    var a := Step(st, 0);
    assert a.threads[0] == Spin(k);
    var b := Step(a, 0);
    assert b.threads[0] == Clear(k);
    r := Step(b, 0);
  }

  lemma FourSteps(slots: seq<bool>, m: nat, s: seq<nat>, t: nat)
    requires |slots| > 0
    ensures RunFrom(slots, m, s + [t]) == Step(RunFrom(slots, m, s), t)
    ensures RunFrom(slots, m, s + [t] + [t]) == Step(Step(RunFrom(slots, m, s), t), t)
    ensures RunFrom(slots, m, s + [t] + [t] + [t]) == Step(Step(Step(RunFrom(slots, m, s), t), t), t)
    ensures RunFrom(slots, m, s + [t] + [t] + [t] + [t]) == Step(Step(Step(Step(RunFrom(slots, m, s), t), t), t), t)
  {
    RunFromSnoc(slots, m, s, t);
    RunFromSnoc(slots, m, s + [t], t);
    RunFromSnoc(slots, m, s + [t] + [t], t);
    RunFromSnoc(slots, m, s + [t] + [t] + [t], t);
  }

  lemma RunFromSnoc(slots: seq<bool>, m: nat, s: seq<nat>, t: nat)
    requires |slots| > 0
    ensures RunFrom(slots, m, s + [t]) == Step(RunFrom(slots, m, s), t)
  {
    assert (s + [t])[..|s + [t]| - 1] == s;
  }

  lemma {:induction false} CycleAlone(slots: seq<bool>, m: nat, k: nat) returns (s: seq<nat>)
    requires m > 0 && k < |slots| && slots[0]
    ensures Cycled(RunFrom(slots, m, s), slots, k)
  {
    if k == 0 {
      s := [];
    } else {
      s := CycleAlone(slots, m, k - 1);
      var st := RunFrom(slots, m, s);
      FourSteps(slots, m, s, 0);
      var r := AcquireAlone(st, slots, k - 1);
      ModIs(k, |slots|, 0, k);
      s := s + [0] + [0] + [0] + [0];
    }
  }

  /** The thread that draws the ticket of a slot that was set from the start gets the lock
      although another holds it. */
  lemma DirtySlotBreaksExclusion(slots: seq<bool>, m: nat, j: nat) returns (s: seq<nat>)
    requires m >= 2 && 1 <= j < |slots| && slots[0] && slots[j]
    ensures !MutualExclusion(RunFrom(slots, m, s))
  {
    s := CycleAlone(slots, m, j - 1);
    var st := RunFrom(slots, m, s);
    FourSteps(slots, m, s, 0);
    var r := AcquireAlone(st, slots, j - 1);
    s := s + [0] + [0] + [0];
    FourSteps(slots, m, s, 1);
    SecondHolder(r, j);
    s := s + [1] + [1] + [1];
  }

  lemma SecondHolder(st: State, j: nat)
    requires |st.threads| >= 2 && 1 <= j < |st.hasLock| && st.nextSlot == j && st.hasLock[j]
    requires st.threads[0].Held? && st.threads[1].Idle?
    ensures !MutualExclusion(Step(Step(Step(st, 1), 1), 1))
  {
    ModIs(j, |st.hasLock|, 0, j);
    var a := Step(st, 1);
    assert a.threads[1] == Spin(j) && a.threads[0].Held?;
    var b := Step(a, 1);
    assert b.threads[1] == Clear(j) && b.threads[0].Held?;
    var c := Step(b, 1);
    assert c.threads[1].Held? && c.threads[0].Held?;
  }

  ghost predicate OnlySlotZero(slots: seq<bool>) {
    forall j :: 1 <= j < |slots| ==> !slots[j]
  }

  /** Both hypotheses are exact: from any contents of the slots, slot 0 being set, the lock
      excludes under every schedule if and only if there is at most one contender, or there
      are at most as many as slots and no other slot is set at the start. */
  lemma ExclusionIff(slots: seq<bool>, m: nat)
    requires |slots| > 0 && slots[0]
    ensures (forall schedule :: MutualExclusion(RunFrom(slots, m, schedule)))
            <==> m <= 1 || (m <= |slots| && OnlySlotZero(slots))
  {
    if m <= 1 {
      assert forall schedule :: MutualExclusion(RunFrom(slots, m, schedule));
    } else if !OnlySlotZero(slots) {
      var j :| 1 <= j < |slots| && slots[j];
      var schedule := DirtySlotBreaksExclusion(slots, m, j);
      assert !MutualExclusion(RunFrom(slots, m, schedule));
    } else {
      var n := |slots|;
      assert slots == seq(n, i => i == 0);
      if m <= n {
        forall schedule ensures MutualExclusion(RunFrom(slots, m, schedule)) {
          ClearRun(n, m, schedule);
          FairMutualExclusion(n, m, schedule);
        }
      } else {
        var schedule := CrowdBreaksExclusion(n, m);
        ClearRun(n, m, schedule);
        assert !MutualExclusion(RunFrom(slots, m, schedule));
      }
    }
  }
}
