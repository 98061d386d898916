/** write_iovs of hashserver2.c: sending a vector of values over partial writes, and
    giving each value back exactly once. */
module WriteIovs {
  import opened Basics

  type Address = nat

  datatype Iov = Iov(base: Address, len: nat)

  /** What one call of writev does: it sends some bytes, would block, or fails. */
  datatype Outcome = Wrote(n: nat) | WouldBlock | Failed

  /** The return value, or that every outcome has been used and the loop still runs. */
  datatype Result = Sent | StreamError | Running

  function Range(base: Address, len: nat): seq<Address> {
    seq(len, i requires 0 <= i => base + i)
  }

  /** The bytes of a vector, each by its address. */
  function Bytes(v: seq<Iov>): seq<Address> {
    if v == [] then [] else Range(v[0].base, v[0].len) + Bytes(v[1..])
  }

  function Length(v: seq<Iov>): nat {
    if v == [] then 0 else v[0].len + Length(v[1..])
  }

  /** The addresses to give back: all bases but that of the shared NULL value. */
  function Values(v: seq<Iov>, nullValue: Address): seq<Address> {
    if v == [] then [] else
      var last := v[|v| - 1];
      Values(v[..|v| - 1], nullValue) + (if last.base != nullValue then [last.base] else [])
  }

  function Written(script: seq<Outcome>): nat {
    if script == [] then 0 else
      var last := script[|script| - 1];
      Written(script[..|script| - 1]) + (if last.Wrote? then last.n else 0)
  }

  lemma {:induction false} LengthIsBytes(v: seq<Iov>)
    ensures |Bytes(v)| == Length(v)
  {
    if v != [] { LengthIsBytes(v[1..]); }
  }

  lemma {:induction false} WrittenPrefix(script: seq<Outcome>, k: nat)
    requires k <= |script|
    ensures Written(script[..k]) <= Written(script)
  {
    if k < |script| {
      WrittenPrefix(script[..|script| - 1], k);
      assert script[..|script| - 1][..k] == script[..k];
    } else {
      assert script[..k] == script;
    }
  }

  lemma WrittenSnoc(script: seq<Outcome>, k: nat)
    requires k < |script|
    ensures Written(script[..k + 1]) == Written(script[..k]) + (if script[k].Wrote? then script[k].n else 0)
  {
    assert script[..k + 1][..k] == script[..k];
  }

  lemma RangeSplit(base: Address, len: nat, r: nat)
    requires r <= len
    ensures Range(base, len) == Range(base, r) + Range(base + r, len - r)
  {
  }

  lemma ValuesSnoc(v: seq<Iov>, k: nat, nullValue: Address)
    requires k < |v|
    ensures Values(v[..k + 1], nullValue)
            == Values(v[..k], nullValue) + (if v[k].base != nullValue then [v[k].base] else [])
  {
    assert v[..k + 1][..k] == v[..k];
  }

  /** Buffer i is where it should be among the bytes: behind those before it, and whole. */
  lemma {:induction false} BufferAt(v: seq<Iov>, i: nat, j: nat)
    requires i < |v| && j < v[i].len
    ensures Length(v[..0]) == 0 && Length(v[..i + 1]) == Length(v[..i]) + v[i].len <= |Bytes(v)| == Length(v)
    ensures Bytes(v)[Length(v[..i]) + j] == v[i].base + j
  {
    LengthIsBytes(v);
    if i > 0 {
      BufferAt(v[1..], i - 1, j);
      assert v[..i][1..] == v[1..][..i - 1] && v[..i + 1][1..] == v[1..][..i];
    } else {
      assert v[..1][1..] == [];
    }
  }

  // What is given back, by positions in the vector.

  /** Item k of `released` is the base of buffer at[k]; every base is there once, and the
      shared NULL value is not. */
  ghost predicate GivenBack(released: seq<Address>, v: seq<Iov>, nullValue: Address, at: seq<nat>) {
    && |at| == |released|
    && (forall k, l :: 0 <= k < l < |at| ==> at[k] < at[l])
    && (forall k :: 0 <= k < |at| ==> at[k] < |v| && v[at[k]].base == released[k] != nullValue)
    && (forall i: nat :: i < |v| && v[i].base != nullValue ==> i in at)
  }

  function Positions(v: seq<Iov>, b: Address): set<nat> {
    set i: nat | i < |v| && v[i].base == b
  }

  ghost predicate OnceEach(released: seq<Address>, v: seq<Iov>, nullValue: Address) {
    && nullValue !in released
    && (forall b :: b != nullValue ==> multiset(released)[b] == |Positions(v, b)|)
    && (exists at :: GivenBack(released, v, nullValue, at))
  }

  lemma OneMorePosition(v: seq<Iov>, b: Address)
    requires v != []
    ensures |Positions(v, b)| == |Positions(v[..|v| - 1], b)| + (if v[|v| - 1].base == b then 1 else 0)
  {
    var n: nat := |v| - 1;
    var before := Positions(v[..n], b);
    if v[n].base == b {
      assert n !in before && Positions(v, b) == before + {n};
    } else {
      assert Positions(v, b) == before;
    }
  }

  lemma {:induction false} ValueCount(v: seq<Iov>, nullValue: Address, b: Address)
    requires b != nullValue
    ensures multiset(Values(v, nullValue))[b] == |Positions(v, b)|
  {
    if v == [] {
      assert Positions(v, b) == {};
    } else {
      ValueCount(v[..|v| - 1], nullValue, b);
      OneMorePosition(v, b);
    }
  }

  lemma OneMoreAt(before: seq<Address>, v: seq<Iov>, nullValue: Address, at: seq<nat>)
    requires v != [] && GivenBack(before, v[..|v| - 1], nullValue, at) && v[|v| - 1].base != nullValue
    ensures GivenBack(before + [v[|v| - 1].base], v, nullValue, at + [|v| - 1])
  {
    var n: nat := |v| - 1;
    var at': seq<nat> := at + [n];
    forall i: nat | i < |v| && v[i].base != nullValue ensures i in at' { Covered(v, nullValue, at, i); }
    forall k | 0 <= k < |at'| ensures at'[k] < |v| && v[at'[k]].base == (before + [v[n].base])[k] != nullValue {
      if k < |at| { assert v[..n][at[k]] == v[at[k]]; }
    }
  }

  lemma Covered(v: seq<Iov>, nullValue: Address, at: seq<nat>, i: nat)
    requires i < |v| && v[i].base != nullValue
    requires forall j: nat :: j < |v| - 1 && v[..|v| - 1][j].base != nullValue ==> j in at
    ensures i in at + [|v| - 1]
  {
    if i < |v| - 1 { assert v[..|v| - 1][i].base != nullValue; } else { assert (at + [i])[|at|] == i; }
  }

  lemma NoneMoreAt(before: seq<Address>, v: seq<Iov>, nullValue: Address, at: seq<nat>)
    requires v != [] && GivenBack(before, v[..|v| - 1], nullValue, at) && v[|v| - 1].base == nullValue
    ensures GivenBack(before, v, nullValue, at)
  {
    var n: nat := |v| - 1;
    forall i: nat | i < |v| && v[i].base != nullValue ensures i in at { assert v[..n][i].base != nullValue; }
  }

  lemma {:induction false} ValuesAt(v: seq<Iov>, nullValue: Address) returns (at: seq<nat>)
    ensures GivenBack(Values(v, nullValue), v, nullValue, at)
  {
    at := [];
    if v != [] {
      var n: nat := |v| - 1;
      at := ValuesAt(v[..n], nullValue);
      if v[n].base != nullValue {
        OneMoreAt(Values(v[..n], nullValue), v, nullValue, at);
        at := at + [n];
      } else {
        NoneMoreAt(Values(v[..n], nullValue), v, nullValue, at);
        assert Values(v, nullValue) == Values(v[..n], nullValue);
      }
    }
  }

  lemma ValuesOnce(v: seq<Iov>, nullValue: Address)
    ensures OnceEach(Values(v, nullValue), v, nullValue)
  {
    var at := ValuesAt(v, nullValue);
    forall b | b != nullValue ensures multiset(Values(v, nullValue))[b] == |Positions(v, b)| {
      ValueCount(v, nullValue, b);
    }
  }

  /** The vector from position c on still has to be sent, after r bytes of it that the
      kernel has taken already. */
  ghost predicate Unsent(v: seq<Iov>, c: nat, r: nat, sent: seq<Address>, all: seq<Address>) {
    c <= |v| && r <= |Bytes(v[c..])| && sent + Bytes(v[c..])[r..] == all
  }

  lemma SkipOne(v: seq<Iov>, c: nat, r: nat, sent: seq<Address>, all: seq<Address>)
    requires Unsent(v, c, r, sent, all) && c < |v| && v[c].len <= r
    ensures Unsent(v, c + 1, r - v[c].len, sent, all)
  {
    assert v[c..][1..] == v[c + 1..];
    assert Bytes(v[c..]) == Range(v[c].base, v[c].len) + Bytes(v[c + 1..]);
    assert Bytes(v[c..])[r..] == Bytes(v[c + 1..])[r - v[c].len..];
  }

  lemma SkipPart(v: seq<Iov>, c: nat, r: nat, sent: seq<Address>, all: seq<Address>)
    requires Unsent(v, c, r, sent, all) && c < |v| && r < v[c].len
    ensures Unsent(v[c := Iov(v[c].base + r, v[c].len - r)], c, 0, sent, all)
  {
    var w := v[c := Iov(v[c].base + r, v[c].len - r)];
    assert w[c..][1..] == v[c + 1..] && v[c..][1..] == v[c + 1..];
    RangeSplit(v[c].base, v[c].len, r);
    assert Bytes(v[c..])[r..] == Bytes(w[c..]);
    assert Bytes(w[c..])[0..] == Bytes(w[c..]);
  }

  lemma Consume(v: seq<Iov>, c: nat, sent: seq<Address>, all: seq<Address>, n: nat)
    requires Unsent(v, c, 0, sent, all) && |sent| + n <= |all|
    ensures n <= |Bytes(v[c..])| && Unsent(v, c, n, sent + Bytes(v[c..])[..n], all)
  {
    var rest := Bytes(v[c..]);
    assert rest[0..] == rest;
    assert sent + rest[..n] + rest[n..] == sent + rest;
  }

  /** What write_iovs keeps: r bytes from position c on have been taken by the kernel and
      are still to be skipped, `base` is the original address of the value being sent (of
      the last value once all are sent), and the values before it have been given back. */
  ghost predicate Progress(v: seq<Iov>, orig: seq<Iov>, nullValue: Address, c: nat, r: nat, sent: seq<Address>,
                           base: Address, released: seq<Address>) {
    && |v| == |orig| > 0 && c <= |v|
    && Unsent(v, c, r, sent, Bytes(orig))
    && (forall i :: c < i < |v| ==> v[i] == orig[i])
    && (if c < |v| then v[|v| - 1].len > 0 <==> orig[|v| - 1].len > 0 else orig[|v| - 1].len > 0)
    && var last := if c < |v| then c else c - 1;
       base == orig[last].base && released == Values(orig[..last], nullValue)
  }

  lemma PassOne(v: seq<Iov>, orig: seq<Iov>, nullValue: Address, c: nat, r: nat, sent: seq<Address>,
                base: Address, released: seq<Address>)
    requires Progress(v, orig, nullValue, c, r, sent, base, released) && c < |v| && r >= v[c].len && r > 0
    ensures var c', r' := c + 1, r - v[c].len;
            if c' == |v| then r' == 0 && Progress(v, orig, nullValue, c', r', sent, base, released)
            else Progress(v, orig, nullValue, c', r', sent, v[c'].base,
                          if base != nullValue then released + [base] else released)
  {
    SkipOne(v, c, r, sent, Bytes(orig));
    ValuesSnoc(orig, c, nullValue);
    if c + 1 == |v| { OneLeft(v, r, sent, Bytes(orig)); }
  }

  /** With one buffer left the bytes taken are its own. */
  lemma OneLeft(v: seq<Iov>, r: nat, sent: seq<Address>, all: seq<Address>)
    requires |v| > 0 && Unsent(v, |v| - 1, r, sent, all)
    ensures r <= v[|v| - 1].len
  {
    assert v[|v| - 1..][1..] == [];
    assert Bytes(v[|v| - 1..]) == Range(v[|v| - 1].base, v[|v| - 1].len) + Bytes([]);
  }

  lemma PassPart(v: seq<Iov>, orig: seq<Iov>, nullValue: Address, c: nat, r: nat, sent: seq<Address>,
                 base: Address, released: seq<Address>)
    requires Progress(v, orig, nullValue, c, r, sent, base, released) && c < |v| && r < v[c].len
    ensures Progress(v[c := Iov(v[c].base + r, v[c].len - r)], orig, nullValue, c, 0, sent, base, released)
  {
    SkipPart(v, c, r, sent, Bytes(orig));
  }

  /** One round of the inner loop: over a whole buffer, or into one. */
  method AdvanceOne(iov: array<Iov>, nullValue: Address, c0: nat, r0: nat, base0: Address, released0: seq<Address>,
                    ghost orig: seq<Iov>, ghost sent: seq<Address>)
    returns (c: nat, r: nat, base: Address, released: seq<Address>)
    requires c0 < iov.Length && r0 > 0 && Progress(iov[..], orig, nullValue, c0, r0, sent, base0, released0)
    modifies iov
    ensures Progress(iov[..], orig, nullValue, c, r, sent, base, released)
    ensures c == iov.Length ==> r == 0
    ensures if c == c0 then r == 0 else c == c0 + 1
  {
    c, base, released := c0, base0, released0;
    if r0 >= iov[c].len {
      PassOne(iov[..], orig, nullValue, c, r0, sent, base, released);
      r := r0 - iov[c].len;
      c := c + 1;
      if c < iov.Length {
        if base != nullValue { released := released + [base]; }
        base := iov[c].base;
      }
    } else {
      PassPart(iov[..], orig, nullValue, c, r0, sent, base, released);
      Assign(iov, c, Iov(iov[c].base + r0, iov[c].len - r0));
      r := 0;
    }
  }

  /** The inner loop: advances over r bytes just written. */
  method Advance(iov: array<Iov>, nullValue: Address, c0: nat, r0: nat, base0: Address, released0: seq<Address>,
                 ghost orig: seq<Iov>, ghost sent: seq<Address>)
    returns (c: nat, base: Address, released: seq<Address>)
    requires c0 < iov.Length && Progress(iov[..], orig, nullValue, c0, r0, sent, base0, released0)
    modifies iov
    ensures Progress(iov[..], orig, nullValue, c, 0, sent, base, released)
  {
    c, base, released := c0, base0, released0;
    var r: nat := r0;
    while r > 0
      invariant (c < iov.Length || r == 0) && Progress(iov[..], orig, nullValue, c, r, sent, base, released)
      decreases iov.Length - c, r
    {
      c, r, base, released := AdvanceOne(iov, nullValue, c, r, base, released, orig, sent);
    }
  }

  /** Gives back the value at position c, or the last one if c is past the end, and all
      that follow: the end of write_iovs. */
  method GiveBackRest(iov: array<Iov>, nullValue: Address, c: nat, base: Address, released0: seq<Address>,
                      ghost orig: seq<Iov>, ghost sent: seq<Address>)
    returns (released: seq<Address>)
    requires Progress(iov[..], orig, nullValue, c, 0, sent, base, released0)
    ensures released == Values(orig, nullValue)
  {
    released := released0;
    ghost var last := if c < iov.Length then c else c - 1;
    ValuesSnoc(orig, last, nullValue);
    if base != nullValue { released := released + [base]; }
    var i := c + 1;
    while i < iov.Length
      invariant c + 1 <= i <= iov.Length || c == iov.Length
      invariant released == Values(orig[..if c < iov.Length then i else iov.Length], nullValue)
    {
      ValuesSnoc(orig, i, nullValue);
      if iov[i].base != nullValue { released := released + [iov[i].base]; }
      i := i + 1;
    }
    assert orig[..iov.Length] == orig;
  }

  /** All bytes are sent once the vector is passed; before that, only if its last buffer
      is empty. */
  lemma AllSentIffAtEnd(v: seq<Iov>, c: nat, sent: seq<Address>, all: seq<Address>)
    requires |v| > 0 && Unsent(v, c, 0, sent, all)
    ensures sent <= all && (c == |v| ==> sent == all)
    ensures c < |v| && v[|v| - 1].len > 0 ==> sent != all
  {
    assert Bytes(v[c..])[0..] == Bytes(v[c..]);
    if c < |v| { LastByte(v, c); } else { assert v[c..] == []; }
  }

  lemma {:induction false} LastByte(v: seq<Iov>, c: nat)
    requires c < |v|
    ensures |Bytes(v[c..])| >= v[|v| - 1].len
    decreases |v| - c
  {
    assert v[c..][1..] == v[c + 1..];
    if c + 1 < |v| { LastByte(v, c + 1); }
  }

  lemma SendSome(v: seq<Iov>, orig: seq<Iov>, nullValue: Address, c: nat, n: nat, sent: seq<Address>,
                 base: Address, released: seq<Address>)
    requires Progress(v, orig, nullValue, c, 0, sent, base, released) && |sent| + n <= |Bytes(orig)|
    ensures n <= |Bytes(v[c..])|
    ensures Progress(v, orig, nullValue, c, n, sent + Bytes(v[c..])[..n], base, released)
  {
    Consume(v, c, sent, Bytes(orig), n);
  }

  /** One writev that sends n bytes, and the progress after it. */
  method Send(iov: array<Iov>, nullValue: Address, c0: nat, n: nat, base0: Address, released0: seq<Address>,
              ghost orig: seq<Iov>, sent0: seq<Address>)
    returns (c: nat, base: Address, released: seq<Address>, sent: seq<Address>)
    requires c0 < iov.Length && Progress(iov[..], orig, nullValue, c0, 0, sent0, base0, released0)
    requires |sent0| + n <= |Bytes(orig)|
    modifies iov
    ensures Progress(iov[..], orig, nullValue, c, 0, sent, base, released)
    ensures |sent| == |sent0| + n
  {
    SendSome(iov[..], orig, nullValue, c0, n, sent0, base0, released0);
    sent := sent0 + Bytes(iov[..][c0..])[..n];
    c, base, released := Advance(iov, nullValue, c0, n, base0, released0, orig, sent);
  }

  /** Where the outer loop can stop. */
  lemma AllSent(v: seq<Iov>, orig: seq<Iov>, nullValue: Address, c: nat, sent: seq<Address>,
                base: Address, released: seq<Address>)
    requires Progress(v, orig, nullValue, c, 0, sent, base, released)
    ensures sent <= Bytes(orig) && (c == |v| <==> sent == Bytes(orig) && orig[|orig| - 1].len > 0)
  {
    AllSentIffAtEnd(v, c, sent, Bytes(orig));
  }

  /** For every sequence of writev outcomes: when the function returns, each value has
      been given back exactly once, by the address it came with and in order, although
      the vector is advanced in place, and the shared NULL value never; the bytes sent
      are the first of the concatenated buffers.  It succeeds exactly when all of them are
      sent and the last buffer is not empty: behind an empty last buffer it keeps calling
      writev with nothing to send. */
  method WriteAll(iov: array<Iov>, nullValue: Address, script: seq<Outcome>)
    returns (result: Result, released: seq<Address>, sent: seq<Address>, used: nat)
    requires iov.Length > 0 && Written(script) <= Length(iov[..])
    modifies iov
    ensures used <= |script| && |sent| == Written(script[..used]) && sent <= Bytes(old(iov[..]))
    ensures result == Sent <==> sent == Bytes(old(iov[..])) && old(iov[iov.Length - 1].len) > 0
    ensures result == StreamError <==> used > 0 && script[used - 1] == Failed
    ensures result != Running ==> OnceEach(released, old(iov[..]), nullValue)
    ensures result == Running ==> used == |script|
  {
    ValuesOnce(iov[..], nullValue);
    result, released, sent, used := Write(iov, nullValue, script);
  }

  lemma NextWritten(script: seq<Outcome>, k: nat, limit: nat)
    requires k < |script| && Written(script) <= limit
    ensures Written(script[..k + 1]) == Written(script[..k]) + (if script[k].Wrote? then script[k].n else 0) <= limit
  {
    WrittenSnoc(script, k);
    WrittenPrefix(script, k + 1);
  }

  /** Its loops. */
  method Write(iov: array<Iov>, nullValue: Address, script: seq<Outcome>)
    returns (result: Result, released: seq<Address>, sent: seq<Address>, used: nat)
    requires iov.Length > 0 && Written(script) <= Length(iov[..])
    modifies iov
    ensures used <= |script| && |sent| == Written(script[..used]) && sent <= Bytes(old(iov[..]))
    ensures result == Sent <==> sent == Bytes(old(iov[..])) && old(iov[iov.Length - 1].len) > 0
    ensures result == StreamError <==> used > 0 && script[used - 1] == Failed
    ensures result != Running ==> released == Values(old(iov[..]), nullValue)
    ensures result == Running ==> used == |script|
  {
    ghost var orig := iov[..];
    ghost var all := Bytes(orig);
    var c: nat, base := 0, iov[0].base;
    result, released, sent, used := Running, [], [], 0;
    LengthIsBytes(orig);
    while c < iov.Length && used < |script|
      invariant used <= |script| && |sent| == Written(script[..used])
      invariant Progress(iov[..], orig, nullValue, c, 0, sent, base, released)
      invariant used > 0 ==> script[used - 1] != Failed
      invariant result == Running
      decreases |script| - used
    {
      NextWritten(script, used, |all|);
      var outcome := script[used];
      used := used + 1;
      if outcome == Failed {
        result := StreamError;
        break;
      }
      if outcome.Wrote? {
        c, base, released, sent := Send(iov, nullValue, c, outcome.n, base, released, orig, sent);
      }
    }
    result, released := Finish(iov, nullValue, c, base, released, orig, sent, result);
  }

  /** After the outer loop. */
  method Finish(iov: array<Iov>, nullValue: Address, c: nat, base: Address, released0: seq<Address>,
                ghost orig: seq<Iov>, ghost sent: seq<Address>, result0: Result)
    returns (result: Result, released: seq<Address>)
    requires Progress(iov[..], orig, nullValue, c, 0, sent, base, released0) && result0 != Sent
    requires result0 == StreamError ==> c < iov.Length
    ensures sent <= Bytes(orig) && (result == Sent <==> sent == Bytes(orig) && orig[|orig| - 1].len > 0)
    ensures result == (if c == iov.Length then Sent else result0)
    ensures result != Running ==> released == Values(orig, nullValue)
  {
    AllSent(iov[..], orig, nullValue, c, sent, base, released0);
    result, released := if c == iov.Length then Sent else result0, released0;
    if result != Running { released := GiveBackRest(iov, nullValue, c, base, released, orig, sent); }
  }
}
