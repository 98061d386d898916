/** What several parts share: options, the sizes in util.h and mpbuffers.h, unsigned
    64-bit wrap-around, and a little arithmetic of remainders. */
module Basics {

  datatype Option<T> = None | Some(value: T)

  const CACHELINE := 64
  const INPB_SIZE := 8          // words in a slot of the input ring
  const INPB_COUNT := 4         // slots in the input ring
  const OUTB_SIZE := 64         // words in the output ring
  const MAX_SERVERS := 1024

  const WRAP := 0x1_0000_0000_0000_0000

  const INT_LIMIT := 0x8000_0000
  const INT_WRAP := 2 * INT_LIMIT

  /** Conversion of an unsigned number to int. */
  function ToInt(x: nat): int {
    var low := x % INT_WRAP;
    if low < INT_LIMIT then low else low - INT_WRAP
  }

  lemma ToIntIff(x: nat)
    ensures -0x8000_0000 <= ToInt(x) < 0x8000_0000 && (x - ToInt(x)) % 0x1_0000_0000 == 0
    ensures ToInt(x) == x <==> x < INT_LIMIT
  {
  }

  lemma Multiple(n: nat, d: int)
    ensures d >= 1 ==> n * d >= n
    ensures d <= -1 ==> n * d <= -(n as int)
  {
  }

  lemma ModIs(x: int, n: nat, q: int, r: int)
    requires n > 0 && x == n * q + r && 0 <= r < n
    ensures x % n == r && x / n == q
  {
    assert x == n * (x / n) + x % n;
    assert n * (x / n - q) == r - x % n;
    Multiple(n, x / n - q);
  }

  ghost predicate Distinct<T>(s: seq<T>) {
    forall i, j :: 0 <= i < j < |s| ==> s[i] != s[j]
  }

  lemma PrefixSnoc<T>(s: seq<T>, n: nat)
    requires n < |s|
    ensures s[..n] + [s[n]] == s[..n + 1]
  {
  }

  lemma SnocPrefix<T>(s: seq<T>, x: T, n: nat)
    requires n <= |s|
    ensures (s + [x])[..n] == s[..n]
  {
  }

  /** Positions less than n apart use different slots of a ring of n. */
  lemma SlotsDiffer(a: nat, b: nat, n: nat)
    requires a < b < a + n
    ensures a % n != b % n
  {
    if a % n == b % n {
      assert b - a == n * (b / n - a / n);
      Multiple(n, b / n - a / n);
    }
  }

  /** Counting positions from left to right. */
  lemma OneMorePosition(before: set<nat>, after: set<nat>, n: nat, there: bool)
    requires n !in before && after == if there then before + {n} else before
    ensures |after| == |before| + (if there then 1 else 0)
  {
  }

  /** An array store, as an update of the sequence in the array. */
  method Assign<T>(a: array<T>, i: nat, x: T)
    requires i < a.Length
    modifies a
    ensures a[..] == old(a[..])[i := x]
  {
    a[i] := x;
  }
}
