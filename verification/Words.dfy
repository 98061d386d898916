/** The words of a batch: the operation in the top four bits, framing, and the loop of
    hash_table_server that overwrites the batch with its answers while it reads it. */
module Words {
  import opened Basics
  import opened Elements
  import Lifetime
  import System
  import Flow
  import Control
  import InputRing

  const TOP := 0x1000_0000_0000_0000        // bit 60: the operation starts here
  const LOOKUP := 1
  const INSERT := 2
  const RELEASE := 3
  const INSERT_MSG_LENGTH := 2

  function Bit(x: nat, i: nat): nat
    requires i > 0
  {
    x / i % 2
  }

  function Either(a: nat, b: nat): nat {
    if a == 1 || b == 1 then 1 else 0
  }

  /** Bitwise or of two four-bit numbers. */
  function OrNibble(a: nat, b: nat): nat {
    8 * Either(Bit(a, 8), Bit(b, 8)) + 4 * Either(Bit(a, 4), Bit(b, 4)) + 2 * Either(Bit(a, 2), Bit(b, 2))
      + Either(Bit(a, 1), Bit(b, 1))
  }

  /** x | (op << 60) for a 64-bit word x. */
  function Tagged(x: nat, op: nat): nat {
    OrNibble(x / TOP, op) * TOP + x % TOP
  }

  /** word & HASHOP_MASK, shifted down, and word & ~HASHOP_MASK. */
  function OpOf(word: nat): nat {
    word / TOP
  }

  function PayloadOf(word: nat): nat {
    word % TOP
  }

  /** The word that names an element; distinct elements have distinct names. */
  function Name(id: Id): nat {
    CACHELINE * (id + 1)
  }

  function IdNamed(name: nat): Id {
    if name < CACHELINE then 0 else name / CACHELINE - 1
  }

  /** An answer as a word: NULL, or the address of the element's value. */
  function ReplyWord(a: Answer): nat {
    match a
    case Null => 0
    case Ref(id, _) => Name(id) + HEADER
  }

  function Encode(op: Op): seq<nat> {
    match op
    case Lookup(key) => [Tagged(key, LOOKUP)]
    case Insert(key, size) => [Tagged(key, INSERT), size]
    case Release(Ref(id, _)) => [Tagged(Name(id), RELEASE)]
    case Release(Null) => [Tagged(0, RELEASE)]
  }

  function EncodeAll(ops: seq<Op>): seq<nat> {
    if ops == [] then [] else Encode(ops[0]) + EncodeAll(ops[1..])
  }

  /** Keys and addresses below 2^60; sizes above 0 and below 2^31. */
  predicate Encodable(op: Op) {
    match op
    case Lookup(key) => key < TOP
    case Insert(key, size) => key < TOP && 0 < size < INT_LIMIT
    case Release(Ref(id, _)) => Name(id) < TOP
    case Release(Null) => false
  }

  ghost predicate AllEncodable(ops: seq<Op>) {
    forall i :: 0 <= i < |ops| ==> Encodable(ops[i])
  }

  /** A release message does not say which kind of reference it gives back. */
  function Erase(op: Op): Op {
    match op
    case Release(Ref(id, _)) => Release(Ref(id, Reader))
    case _ => op
  }

  /** The server's reading of the request at the head of a nonempty batch. */
  function Decode(words: seq<nat>): Option<Op>
    requires words != []
  {
    var op, payload := OpOf(words[0]), PayloadOf(words[0]);
    if op == LOOKUP then Some(Lookup(payload))
    else if op == INSERT && |words| > 1 && ToInt(words[1]) >= 0 then Some(Insert(payload, ToInt(words[1])))
    else if op == RELEASE then Some(Release(Ref(IdNamed(payload), Reader)))
    else None
  }

  lemma OrZero(op: nat)
    requires op <= 3
    ensures OrNibble(0, op) == op
  {
    assert op == 0 || op == 1 || op == 2 || op == 3;
    assert Bit(0, 8) == 0 && Bit(0, 4) == 0 && Bit(0, 2) == 0 && Bit(0, 1) == 0;
  }

  lemma TaggedIs(x: nat, op: nat)
    requires x < TOP && op <= 3
    ensures Tagged(x, op) == op * TOP + x
  {
    assert x / TOP == 0 && x % TOP == x;
    OrZero(op);
  }

  lemma TaggedParts(x: nat, op: nat)
    requires x < TOP && op <= 3
    ensures OpOf(Tagged(x, op)) == op && PayloadOf(Tagged(x, op)) == x && Tagged(x, op) < WRAP
    ensures op > 0 ==> Tagged(x, op) > 0
  {
    TaggedIs(x, op);
  }

  /** The words as they are on the ring: the operation in the top four bits. */
  lemma QueryLayout(key: nat, size: nat)
    requires key < TOP
    ensures Encode(Lookup(key)) == [0x1000_0000_0000_0000 + key]
    ensures Encode(Insert(key, size)) == [0x2000_0000_0000_0000 + key, size]
  {
    TaggedIs(key, LOOKUP);
    TaggedIs(key, INSERT);
  }

  /** Elements are named by their addresses, multiples of 64, and values by the address after
      the header. */
  lemma AddressLayout(id: Id, hold: Hold)
    requires Name(id) < TOP
    ensures Encode(Release(Ref(id, hold))) == [0x3000_0000_0000_0000 + Name(id)]
    ensures Name(id) % 64 == 0 < Name(id) && ReplyWord(Ref(id, hold)) == Name(id) + 64 && ReplyWord(Null) == 0
  {
    NameIsAligned(id);
    var name := Name(id);
    TaggedIs(name, RELEASE);
    assert Encode(Release(Ref(id, hold))) == [Tagged(name, RELEASE)];
  }

  lemma NameIsAligned(id: Id)
    ensures Name(id) % 64 == 0 < Name(id)
  {
  }

  lemma FirstWord(op: Op, rest: seq<nat>)
    ensures var w := Encode(op) + rest;
            w != [] && w[0] == Encode(op)[0] && (op.Insert? ==> |w| > 1 && w[1] == op.size)
  {
  }

  /** Decoding the first request of a batch gives back what was encoded there. */
  lemma DecodeEncode(op: Op, rest: seq<nat>)
    requires Encodable(op)
    ensures Encode(op) + rest != [] && Decode(Encode(op) + rest) == Some(Erase(op))
    ensures |Encode(op)| == System.Words(op) && InputRing.Nonzero(Encode(op))
  {
    FirstWord(op, rest);
    match op
    case Lookup(key) => TaggedParts(key, LOOKUP);
    case Insert(key, size) => DecodeInsert(key, size, rest);
    case Release(Ref(id, _)) =>
      TaggedParts(Name(id), RELEASE);
      NameBack(id);
  }

  lemma DecodeInsert(key: nat, size: nat, rest: seq<nat>)
    requires key < TOP && 0 < size < INT_LIMIT
    ensures Decode(Encode(Insert(key, size)) + rest) == Some(Insert(key, size))
    ensures InputRing.Nonzero(Encode(Insert(key, size)))
  {
    FirstWord(Insert(key, size), rest);
    TaggedParts(key, INSERT);
    ToIntIff(size);
  }

  lemma NameBack(id: Id)
    ensures IdNamed(Name(id)) == id
  {
  }

  /** The hypotheses on keys and sizes are exact: the server sees a 64-bit key unchanged if
      and only if it is below 2^60, and the size word as it was sent if and only if it is
      below 2^31, because hash_insert takes an int. */
  lemma KeySurvivesIff(key: nat)
    requires key < WRAP
    ensures Decode(Encode(Lookup(key))) == Some(Lookup(key)) <==> key < TOP
    ensures forall size: nat ::
              (Decode(Encode(Insert(key, size))) == Some(Insert(key, size)) <==> key < TOP && size < INT_LIMIT)
  {
    forall size: nat
      ensures Decode(Encode(Insert(key, size))) == Some(Insert(key, size)) <==> key < TOP && size < INT_LIMIT
    {
      InsertSurvivesIff(key, size);
    }
    if key < TOP { TaggedParts(key, LOOKUP); } else { DecodedKeySmall(Encode(Lookup(key))); }
  }

  lemma InsertSurvivesIff(key: nat, size: nat)
    ensures Decode(Encode(Insert(key, size))) == Some(Insert(key, size)) <==> key < TOP && size < INT_LIMIT
  {
    ToIntIff(size);
    if key < TOP { TaggedParts(key, INSERT); } else { DecodedKeySmall(Encode(Insert(key, size))); }
  }

  lemma DecodedKeySmall(words: seq<nat>)
    requires words != []
    ensures var d := Decode(words); d.Some? && !d.value.Release? ==> d.value.key < TOP
  {
    PayloadSmall(words[0]);
  }

  lemma PayloadSmall(word: nat)
    ensures PayloadOf(word) < TOP
  {
  }

  lemma {:induction false} EncodeSnoc(ops: seq<Op>, op: Op)
    ensures EncodeAll(ops + [op]) == EncodeAll(ops) + Encode(op)
  {
    if ops == [] {
      assert [] + [op] == [op];
      assert EncodeAll([op]) == Encode(op) + EncodeAll([]);
    } else {
      assert (ops + [op])[1..] == ops[1..] + [op];
      EncodeSnoc(ops[1..], op);
    }
  }

  /** Framing: whatever requests share a slot, the slot holds their words whole, within
      its size and none zero, so the ring's hypotheses hold for every batch. */
  lemma {:induction false} BatchFitsSlot(ops: seq<Op>)
    requires AllEncodable(ops)
    ensures |EncodeAll(ops)| == System.WordsOf(ops) && InputRing.Nonzero(EncodeAll(ops))
    ensures Flow.BatchOk(ops) ==> 0 < |EncodeAll(ops)| <= INPB_SIZE
  {
    if ops != [] {
      var init, last := ops[..|ops| - 1], ops[|ops| - 1];
      BatchFitsSlot(init);
      assert ops == init + [last];
      EncodeSnoc(init, last);
      DecodeEncode(last, []);
      Flow.OpsFit(ops);
    }
  }

  function Replies(answers: seq<Option<Answer>>): seq<nat> {
    if answers == [] then [] else
      var last := answers[|answers| - 1];
      Replies(answers[..|answers| - 1]) + (if last.Some? then [ReplyWord(last.value)] else [])
  }

  lemma RepliesSnoc(answers: seq<Option<Answer>>, a: Option<Answer>)
    ensures Replies(answers + [a]) == Replies(answers) + (if a.Some? then [ReplyWord(a.value)] else [])
  {
    assert (answers + [a])[..|answers + [a]| - 1] == answers;
  }

  lemma ExecErase(p: Part, op: Op)
    ensures Exec(Messages, p, Erase(op)) == Exec(Messages, p, op)
  {
  }

  lemma OneMore(p: Part, ops: seq<Op>, m: nat)
    requires m < |ops|
    ensures ops[..m + 1] == ops[..m] + [ops[m]]
    ensures Lifetime.Run(Messages, p, ops[..m + 1]) == Exec(Messages, Lifetime.Run(Messages, p, ops[..m]), ops[m]).0
    ensures var a := Exec(Messages, Lifetime.Run(Messages, p, ops[..m]), ops[m]).1;
            Replies(Lifetime.Answers(Messages, p, ops[..m + 1]))
            == Replies(Lifetime.Answers(Messages, p, ops[..m])) + (if a.Some? then [ReplyWord(a.value)] else [])
  {
    assert ops[..m + 1] == ops[..m] + [ops[m]];
    Lifetime.RunSnocAll(Messages, p, ops[..m], ops[m]);
    RepliesSnoc(Lifetime.Answers(Messages, p, ops[..m]), Exec(Messages, Lifetime.Run(Messages, p, ops[..m]), ops[m]).1);
  }

  lemma SuffixHead(ops: seq<Op>, m: nat)
    requires m < |ops| && Encodable(ops[m])
    ensures EncodeAll(ops[m..]) == Encode(ops[m]) + EncodeAll(ops[m + 1..])
    ensures EncodeAll(ops[m..]) != [] && Decode(EncodeAll(ops[m..])) == Some(Erase(ops[m]))
    ensures |Encode(ops[m])| == System.Words(ops[m])
  {
    assert ops[m..][1..] == ops[m + 1..];
    DecodeEncode(ops[m], EncodeAll(ops[m + 1..]));
  }

  /** After serving the first m requests of the batch: k words read, j words written over
      them, the unread words still those of the remaining requests. */
  ghost predicate Served(words: seq<nat>, count: nat, p: Part, ops: seq<Op>, m: nat, k: nat, j: nat, q: Part) {
    && j <= k <= count <= |words| && m <= |ops|
    && words[k..count] == EncodeAll(ops[m..])
    && q == Lifetime.Run(Messages, p, ops[..m])
    && words[..j] == Replies(Lifetime.Answers(Messages, p, ops[..m]))
  }

  lemma NotDone(words: seq<nat>, count: nat, p: Part, ops: seq<Op>, m: nat, k: nat, j: nat, q: Part)
    requires AllEncodable(ops) && Served(words, count, p, ops, m, k, j, q)
    ensures k < count <==> m < |ops|
    ensures k < count ==> k + System.Words(ops[m]) <= count && Decode(words[k..count]) == Some(Erase(ops[m]))
  {
    if m < |ops| { SuffixHead(ops, m); }
  }

  /** The three cases of the switch, for a word and the word after it. */
  function Case(q: Part, word: nat, size: nat): (Part, Option<Answer>) {
    var op, payload := OpOf(word), PayloadOf(word);
    if op == LOOKUP then var (r, a) := ExecLookup(q, payload); (r, Some(a))
    else if op == INSERT then
      if ToInt(size) < 0 then (q.(fault := true), Some(Null))
      else var (r, a) := ExecInsert(Messages, q, payload, ToInt(size)); (r, Some(a))
    else (PutBack(Messages, q, IdNamed(payload), false), None)
  }

  /** Running the case the switch selects is executing the request at position k. */
  lemma Branch(words: seq<nat>, count: nat, p: Part, ops: seq<Op>, m: nat, k: nat, j: nat, q: Part)
    requires AllEncodable(ops) && Served(words, count, p, ops, m, k, j, q) && k < count
    ensures m < |ops| && k + System.Words(ops[m]) <= count && LOOKUP <= OpOf(words[k]) <= RELEASE
    ensures System.Words(ops[m]) == (if OpOf(words[k]) == INSERT then INSERT_MSG_LENGTH else 1)
    ensures ops[m].Release? <==> OpOf(words[k]) == RELEASE
    ensures Exec(Messages, q, ops[m]) == Case(q, words[k], if k + 1 < |words| then words[k + 1] else 0)
  {
    NotDone(words, count, p, ops, m, k, j, q);
    ExecErase(q, ops[m]);
  }

  lemma RestAfter(words: seq<nat>, words': seq<nat>, k: nat, step: nat, count: nat, first: seq<nat>, rest: seq<nat>)
    requires k + step <= count <= |words| == |words'| && step == |first|
    requires forall i :: k + step <= i < count ==> words'[i] == words[i]
    requires words[k..count] == first + rest
    ensures words'[k + step..count] == rest
  {
    assert |rest| == count - (k + step);
    forall i | 0 <= i < |rest| ensures words'[k + step..count][i] == rest[i] {
      assert rest[i] == words[k..count][step + i];
    }
  }

  lemma FrontAfter(words: seq<nat>, j: nat, w: nat, done: seq<nat>)
    requires j < |words| && words[..j] == done
    ensures words[j := w][..j + 1] == done + [w]
  {
  }

  lemma AnswerAfter(p: Part, ops: seq<Op>, m: nat, words: seq<nat>, j: nat, words': seq<nat>, a: Option<Answer>)
    requires m < |ops| && j < |words| && a == Exec(Messages, Lifetime.Run(Messages, p, ops[..m]), ops[m]).1
    requires words[..j] == Replies(Lifetime.Answers(Messages, p, ops[..m]))
    requires words' == if a.Some? then words[j := ReplyWord(a.value)] else words
    ensures words'[..if a.Some? then j + 1 else j] == Replies(Lifetime.Answers(Messages, p, ops[..m + 1]))
  {
    OneMore(p, ops, m);
    if a.Some? { FrontAfter(words, j, ReplyWord(a.value), words[..j]); }
  }

  /** Serving one more request moves k past its words, and j by one if it has an answer. */
  lemma ServeOne(words: seq<nat>, words': seq<nat>, count: nat, p: Part, ops: seq<Op>, m: nat, k: nat, j: nat, q: Part)
    requires AllEncodable(ops) && Served(words, count, p, ops, m, k, j, q) && m < |ops|
    requires var a := Exec(Messages, q, ops[m]).1;
             words' == if a.Some? && j < |words| then words[j := ReplyWord(a.value)] else words
    ensures var (r, a) := Exec(Messages, q, ops[m]);
            Served(words', count, p, ops, m + 1, k + System.Words(ops[m]), if a.Some? then j + 1 else j, r)
  {
    var (r, a) := Exec(Messages, q, ops[m]);
    NotDone(words, count, p, ops, m, k, j, q);
    SuffixHead(ops, m);
    RestAfter(words, words', k, System.Words(ops[m]), count, Encode(ops[m]), EncodeAll(ops[m + 1..]));
    AnswerAfter(p, ops, m, words, j, words', a);
    OneMore(p, ops, m);
  }

  /** One round of the loop: what the buffer, the positions and the partition become. */
  lemma ServeRound(words: seq<nat>, words': seq<nat>, count: nat, p: Part, ops: seq<Op>, m: nat, k: nat, k': nat,
                   j: nat, q: Part, r: Part, a: Option<Answer>)
    requires AllEncodable(ops) && Served(words, count, p, ops, m, k, j, q) && k < count
    requires (r, a) == Case(q, words[k], if k + 1 < |words| then words[k + 1] else 0)
    requires words' == if a.Some? && j < |words| then words[j := ReplyWord(a.value)] else words
    requires k' == k + (if OpOf(words[k]) == INSERT then INSERT_MSG_LENGTH else 1)
    ensures Served(words', count, p, ops, m + 1, k', if a.Some? then j + 1 else j, r)
  {
    Branch(words, count, p, ops, m, k, j, q);
    ServeOne(words, words', count, p, ops, m, k, j, q);
  }

  /** One round of the loop, in place. */
  method ServeNext(buf: array<nat>, count: nat, k0: nat, j0: nat, q0: Part, ghost p: Part, ghost ops: seq<Op>,
                   ghost m: nat)
    returns (k: nat, j: nat, q: Part)
    requires AllEncodable(ops) && Served(buf[..], count, p, ops, m, k0, j0, q0) && k0 < count
    modifies buf
    ensures Served(buf[..], count, p, ops, m + 1, k, j, q) && k > k0
  {
    ghost var words := buf[..];
    var r, a := RunCase(q0, buf[k0], if k0 + 1 < buf.Length then buf[k0 + 1] else 0);
    k := k0 + (if OpOf(buf[k0]) == INSERT then INSERT_MSG_LENGTH else 1);
    j, q := j0, r;
    if a.Some? {
      Assign(buf, j, ReplyWord(a.value));
      j := j + 1;
    }
    ServeRound(words, buf[..], count, p, ops, m, k0, k, j0, q0, r, a);
  }

  /** The switch. */
  method RunCase(q: Part, word: nat, size: nat) returns (r: Part, a: Option<Answer>)
    ensures (r, a) == Case(q, word, size)
  {
    var op, payload := OpOf(word), PayloadOf(word);
    if op == LOOKUP {
      var (p, b) := ExecLookup(q, payload);
      r, a := p, Some(b);
    } else if op == INSERT {
      if ToInt(size) < 0 {
        r, a := q.(fault := true), Some(Null);
      } else {
        var (p, b) := ExecInsert(Messages, q, payload, ToInt(size));
        r, a := p, Some(b);
      }
    } else {
      r, a := PutBack(Messages, q, IdNamed(payload), false), None;
    }
  }

  /** The loop of hash_table_server over one batch, in place.  For a batch that encodes
      whole requests it parses exactly those, leaves in the front of the buffer exactly
      one word per lookup or insert and none per release, in order, and takes the
      partition through the sequential run of the requests. */
  method ServeBatch(buf: array<nat>, count: nat, p: Part, ghost ops: seq<Op>) returns (j: nat, q: Part)
    requires count <= buf.Length && AllEncodable(ops) && buf[..count] == EncodeAll(ops)
    modifies buf
    ensures j <= count
    ensures q == Lifetime.Run(Messages, p, ops)
    ensures buf[..j] == Replies(Lifetime.Answers(Messages, p, ops))
    ensures j == |Flow.Queries(ops)|
  {
    var k: nat := 0;
    j, q := 0, p;
    ghost var m: nat := 0;
    NothingServed(buf[..], count, p, ops);
    while k < count
      invariant Served(buf[..], count, p, ops, m, k, j, q)
      decreases count - k
    {
      k, j, q := ServeNext(buf, count, k, j, q, p, ops, m);
      m := m + 1;
    }
    AllServed(buf[..], count, p, ops, m, k, j, q);
  }

  lemma NothingServed(words: seq<nat>, count: nat, p: Part, ops: seq<Op>)
    requires count <= |words| && words[..count] == EncodeAll(ops)
    ensures Served(words, count, p, ops, 0, 0, 0, p)
  {
    assert ops[..0] == [] && ops[0..] == ops;
    assert words[0..count] == words[..count];
  }

  lemma AllServed(words: seq<nat>, count: nat, p: Part, ops: seq<Op>, m: nat, k: nat, j: nat, q: Part)
    requires AllEncodable(ops) && Served(words, count, p, ops, m, k, j, q) && k == count
    ensures q == Lifetime.Run(Messages, p, ops) && words[..j] == Replies(Lifetime.Answers(Messages, p, ops))
    ensures j == |Flow.Queries(ops)|
  {
    NotDone(words, count, p, ops, m, k, j, q);
    assert ops[..m] == ops;
    RepliesLength(p, ops);
  }

  /** One answer per lookup or insert, none per release. */
  lemma {:induction false} RepliesLength(p: Part, ops: seq<Op>)
    ensures |Replies(Lifetime.Answers(Messages, p, ops))| == |Flow.Queries(ops)|
  {
    if ops != [] {
      var n := |ops| - 1;
      RepliesLength(p, ops[..n]);
      assert ops[..n + 1] == ops;
      OneMore(p, ops, n);
      OneReply(Lifetime.Run(Messages, p, ops[..n]), ops);
    }
  }

  lemma OneReply(q: Part, ops: seq<Op>)
    requires ops != []
    ensures var a := Exec(Messages, q, ops[|ops| - 1]).1;
            |Flow.Queries(ops)| == |Flow.Queries(ops[..|ops| - 1])| + (if a.Some? then 1 else 0)
  {
    Control.ExecAnswers(q, ops[|ops| - 1]);
  }
}
