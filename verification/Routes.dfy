/** Sequences of items tagged with a server (or a client), and their projections. */
module Routes {

  /** The items tagged t, in order. */
  function Route<T>(xs: seq<(nat, T)>, t: nat): seq<T> {
    if xs == [] then [] else
      var last := xs[|xs| - 1];
      Route(xs[..|xs| - 1], t) + (if last.0 == t then [last.1] else [])
  }

  function Tags<T>(xs: seq<(nat, T)>): (r: seq<nat>)
    ensures |r| == |xs| && forall i :: 0 <= i < |xs| ==> r[i] == xs[i].0
  {
    seq(|xs|, i requires 0 <= i < |xs| => xs[i].0)
  }

  function Count(ts: seq<nat>, t: nat): nat {
    if ts == [] then 0 else Count(ts[..|ts| - 1], t) + (if ts[|ts| - 1] == t then 1 else 0)
  }

  function Flat<T>(bs: seq<seq<T>>): seq<T> {
    if bs == [] then [] else Flat(bs[..|bs| - 1]) + bs[|bs| - 1]
  }

  lemma RouteSnoc<T>(xs: seq<(nat, T)>, x: (nat, T), t: nat)
    ensures Route(xs + [x], t) == Route(xs, t) + (if x.0 == t then [x.1] else [])
  {
    assert (xs + [x])[..|xs + [x]| - 1] == xs;
  }

  lemma CountSnoc(ts: seq<nat>, x: nat, t: nat)
    ensures Count(ts + [x], t) == Count(ts, t) + (if x == t then 1 else 0)
  {
    assert (ts + [x])[..|ts + [x]| - 1] == ts;
  }

  lemma FlatSnoc<T>(bs: seq<seq<T>>, b: seq<T>)
    ensures Flat(bs + [b]) == Flat(bs) + b
  {
    assert (bs + [b])[..|bs + [b]| - 1] == bs;
  }

  lemma {:induction false} RouteHead<T>(xs: seq<(nat, T)>, t: nat)
    requires xs != []
    ensures Route(xs, t) == (if xs[0].0 == t then [xs[0].1] else []) + Route(xs[1..], t)
  {
    if |xs| == 1 {
      assert xs[..0] == [] && xs[1..] == [];
      assert Route(xs[..0], t) == [] && Route(xs[1..], t) == [];
    } else {
      var init := xs[..|xs| - 1];
      RouteHead(init, t);
      RouteSnoc(init[1..], xs[|xs| - 1], t);
      assert init[1..] + [xs[|xs| - 1]] == xs[1..];
    }
  }

  lemma {:induction false} CountHead(ts: seq<nat>, t: nat)
    requires ts != []
    ensures Count(ts, t) == (if ts[0] == t then 1 else 0) + Count(ts[1..], t)
  {
    if |ts| == 1 {
      assert ts[..0] == [] && ts[1..] == [];
    } else {
      var init := ts[..|ts| - 1];
      CountHead(init, t);
      CountSnoc(init[1..], ts[|ts| - 1], t);
      assert init[1..] + [ts[|ts| - 1]] == ts[1..];
    }
  }

  lemma {:induction false} FlatHead<T>(bs: seq<seq<T>>)
    requires bs != []
    ensures Flat(bs) == bs[0] + Flat(bs[1..])
  {
    var init, last := bs[..|bs| - 1], bs[|bs| - 1];
    if init == [] {
      assert bs[1..] == [];
    } else {
      FlatHead(init);
      FlatSnoc(init[1..], last);
      var rest := init[1..] + [last];
      assert rest == bs[1..];
      Assoc(bs[0], Flat(init[1..]), last);
    }
  }

  lemma Assoc<T>(a: seq<T>, b: seq<T>, c: seq<T>)
    ensures (a + b) + c == a + (b + c)
  {
  }

  lemma {:induction false} RouteConcat<T>(a: seq<(nat, T)>, b: seq<(nat, T)>, t: nat)
    ensures Route(a + b, t) == Route(a, t) + Route(b, t)
  {
    if b == [] {
      assert a + b == a;
    } else {
      assert (a + b)[..|a + b| - 1] == a + b[..|b| - 1];
      RouteConcat(a, b[..|b| - 1], t);
    }
  }

  lemma {:induction false} CountConcat(a: seq<nat>, b: seq<nat>, t: nat)
    ensures Count(a + b, t) == Count(a, t) + Count(b, t)
  {
    if b == [] {
      assert a + b == a;
    } else {
      assert (a + b)[..|a + b| - 1] == a + b[..|b| - 1];
      CountConcat(a, b[..|b| - 1], t);
    }
  }

  lemma {:induction false} RouteLength<T>(xs: seq<(nat, T)>, t: nat)
    ensures |Route(xs, t)| == Count(Tags(xs), t)
  {
    if xs != [] {
      RouteLength(xs[..|xs| - 1], t);
      assert Tags(xs)[..|xs| - 1] == Tags(xs[..|xs| - 1]);
    }
  }

  /** The item at position i is the Count-th item of its own route. */
  lemma {:induction false} RouteAt<T>(xs: seq<(nat, T)>, i: nat)
    requires i < |xs|
    ensures Count(Tags(xs)[..i], xs[i].0) < |Route(xs, xs[i].0)|
    ensures Route(xs, xs[i].0)[Count(Tags(xs)[..i], xs[i].0)] == xs[i].1
  {
    var init := xs[..|xs| - 1];
    assert Tags(init) == Tags(xs)[..|xs| - 1];
    if i == |xs| - 1 {
      RouteLength(init, xs[i].0);
    } else {
      RouteAt(init, i);
      assert Tags(init)[..i] == Tags(xs)[..i];
    }
  }

  lemma {:induction false} RouteMember<T>(xs: seq<(nat, T)>, t: nat, x: T)
    ensures x in Route(xs, t) <==> (t, x) in xs
  {
    if xs != [] {
      var init, last := xs[..|xs| - 1], xs[|xs| - 1];
      RouteMember(init, t, x);
      assert xs == init + [last];
    }
  }

  /** Equal tags and equal routes make equal sequences. */
  lemma SameRoutes<T>(xs: seq<(nat, T)>, ys: seq<(nat, T)>)
    requires |xs| <= |ys| && Tags(xs) == Tags(ys)[..|xs|]
    requires forall t :: Route(xs, t) <= Route(ys, t)
    ensures xs == ys[..|xs|]
  {
    forall i | 0 <= i < |xs| ensures xs[i] == ys[i] {
      var t := xs[i].0;
      RouteAt(xs, i);
      RouteAt(ys, i);
      assert Tags(xs)[i] == Tags(ys)[i];
      assert Tags(xs)[..i] == Tags(ys)[..i];
      assert Route(xs, t) <= Route(ys, t);
    }
  }
}
