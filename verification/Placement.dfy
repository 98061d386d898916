/** The number of buckets of a partition, and why keys spread evenly over the
    (server, bucket) pairs. */
module Placement {
  import opened Basics
  import System

  const BUCKET_LOAD := 2 * 128

  function Max(a: int, b: int): int {
    if a > b then a else b
  }

  function CeilDiv(a: nat, n: nat): nat
    requires n > 0
  {
    (a + n - 1) / n
  }

  function Groups(maxSize: nat, nservers: nat): nat
    requires nservers > 0
  {
    CeilDiv(Max(10, ToInt(maxSize / BUCKET_LOAD)), nservers)
  }

  /** The number init_hash_partition computes for p->nhash, with an exact ceiling, before
      it is converted to int. */
  function NHash(maxSize: nat, nservers: nat): int
    requires nservers > 0
  {
    Groups(maxSize, nservers) * nservers - 1
  }

  predicate Divides(d: nat, a: nat) {
    d > 0 && a % d == 0
  }

  ghost predicate Coprime(a: nat, b: nat) {
    forall d :: Divides(d, a) && Divides(d, b) ==> d == 1
  }

  // Divisibility by hand.

  lemma SameMod(x: int, y: int, n: nat) returns (k: int)
    requires n > 0 && x % n == y % n
    ensures x == y + n * k
  {
    k := x / n - y / n;
    assert x == n * (x / n) + x % n && y == n * (y / n) + y % n;
  }

  lemma AddMultiple(x: int, n: nat, k: int)
    requires n > 0
    ensures (x + n * k) % n == x % n
  {
    assert x == n * (x / n) + x % n;
    assert x + n * k == n * (x / n + k) + x % n;
    ModIs(x + n * k, n, x / n + k, x % n);
  }

  lemma CeilDivBound(a: nat, n: nat)
    requires n > 0
    ensures CeilDiv(a, n) * n >= a
  {
    var t := a + n - 1;
    assert t == n * (t / n) + t % n;
    assert CeilDiv(a, n) * n == n * (t / n);
  }

  lemma CeilDivAtMost(a: nat, n: nat, k: nat)
    requires n > 0
    ensures CeilDiv(a, n) <= k <==> a <= k * n
  {
    var c := CeilDiv(a, n);
    CeilDivBound(a, n);
    assert a + n - 1 == n * c + (a + n - 1) % n;
    if c <= k {
      assert (k - c) * n >= 0;
    } else {
      assert (c - k) * n >= n by { Multiple(n, c - k); }
    }
  }

  lemma MultipleAtMost(c: nat, n: nat, limit: nat)
    requires n > 0
    ensures c * n <= limit <==> c <= limit / n
  {
    var k := limit / n;
    assert limit == n * k + limit % n;
    if c <= k {
      assert (k - c) * n >= 0;
    } else {
      assert (c - k) * n >= n by { Multiple(n, c - k); }
    }
  }

  /** nhash + 1 is the least multiple of nservers that is at least ten and at least the
      budget over 256, the quotient taken as an int. */
  lemma NHashIs(maxSize: nat, nservers: nat)
    requires nservers > 0
    ensures var h := NHash(maxSize, nservers);
            && (h + 1) % nservers == 0
            && 10 <= h + 1 && ToInt(maxSize / 256) <= h + 1
            && (h + 1 < 10 + nservers || h + 1 < ToInt(maxSize / 256) + nservers)
  {
    var want, c := Max(10, ToInt(maxSize / BUCKET_LOAD)), Groups(maxSize, nservers);
    CeilDivBound(want, nservers);
    assert want + nservers - 1 == nservers * c + (want + nservers - 1) % nservers;
    assert nservers * c == c * nservers;
    ModIs(c * nservers, nservers, c, 0);
  }

  /** hash_get_bucket. */
  function BucketOf(key: nat, nhash: nat): nat
    requires nhash > 0
  {
    key % nhash
  }

  /** The server of a key is its remainder by the number of servers, and the bucket its
      remainder by the number of buckets. */
  lemma RemainderIff(key: nat, n: nat, r: nat)
    requires n > 0
    ensures System.ServerOf(key, n) == r <==> r < n && exists q: nat :: key == q * n + r
    ensures BucketOf(key, n) == r <==> r < n && exists q: nat :: key == q * n + r
  {
    if r == key % n { assert key == key / n * n + r; }
    forall q: nat | r < n && key == q * n + r ensures key % n == r { ModIs(key, n, q, r); }
  }

  /** The conversion to int keeps it if and only if the wanted number of buckets is at most
      the largest multiple of nservers that is at most 2^31. */
  lemma NHashFitsIff(maxSize: nat, nservers: nat)
    requires nservers > 0
    ensures NHash(maxSize, nservers) < INT_LIMIT
            <==> Max(10, ToInt(maxSize / BUCKET_LOAD)) <= INT_LIMIT / nservers * nservers
  {
    var k := INT_LIMIT / nservers;
    MultipleAtMost(Groups(maxSize, nservers), nservers, INT_LIMIT);
    CeilDivAtMost(Max(10, ToInt(maxSize / BUCKET_LOAD)), nservers, k);
  }

  /** nhash is positive and coprime to nservers, whatever the size. */
  lemma NHashCoprime(maxSize: nat, nservers: nat)
    requires nservers > 0
    ensures NHash(maxSize, nservers) >= 9
    ensures Coprime(NHash(maxSize, nservers), nservers)
  {
    var c := Groups(maxSize, nservers);
    CeilDivBound(Max(10, ToInt(maxSize / BUCKET_LOAD)), nservers);
    var h := NHash(maxSize, nservers);
    forall d: nat | Divides(d, h) && Divides(d, nservers) ensures d == 1 {
      var x, y := h / d, nservers / d;
      assert h == d * x && nservers == d * y;
      assert c * nservers == d * (c * y) by { Commute(c, d, y); }
      assert d * (c * y) - d * x == d * (c * y - x);
      DividesOne(d, c * y - x);
    }
  }

  lemma Commute(a: int, b: int, c: int)
    ensures a * (b * c) == b * (a * c)
  {
  }

  lemma DividesOne(d: nat, k: int)
    requires d * k == 1
    ensures d == 1
  {
    if d > 1 { Multiple(d, k); }
  }

  // Every pair once in every block.

  /** The key of the block [0, n * h) with residues s and b, for h == c * n - 1. */
  function Solve(n: nat, h: nat, s: nat, b: nat): nat
    requires n > 0
  {
    b + h * ((b - s) % n)
  }

  lemma SolveOk(n: nat, c: nat, h: nat, s: nat, b: nat)
    requires n > 0 && h + 1 == c * n && s < n && b < h
    ensures var x := Solve(n, h, s, b); x % h == b && x % n == s && x < n * h
  {
    var t := (b - s) % n;
    var x := Solve(n, h, s, b);
    ModIs(x, h, t, b);
    assert b - s == n * ((b - s) / n) + t;
    var k := (b - s) / n;
    assert h * t == (c * n - 1) * t == n * (c * t) - t by { Expand(c, n, t); }
    assert x == n * (k + c * t) + s;
    ModIs(x, n, k + c * t, s);
    assert h * t + h == h * (t + 1) && h * (t + 1) <= h * n by {
      Multiple(h, n - t - 1);
      assert h * n == h * (t + 1) + h * (n - t - 1);
    }
    assert h * n == n * h;
  }

  lemma Expand(c: nat, n: nat, t: nat)
    ensures (c * n - 1) * t == n * (c * t) - t
  {
    assert (c * n) * t == n * (c * t) by { assert c * n == n * c; Assoc(n, c, t); }
  }

  lemma Assoc(a: int, b: int, c: int)
    ensures (a * b) * c == a * (b * c)
  {
  }

  /** The same key moved into the block that starts at base. */
  function KeyFor(n: nat, h: nat, base: nat, s: nat, b: nat): int
    requires n > 0 && h > 0 && n * h > 0
  {
    base + (Solve(n, h, s, b) - base) % (n * h)
  }

  lemma KeyForOk(n: nat, c: nat, h: nat, base: nat, s: nat, b: nat)
    requires n > 0 && h > 0 && n * h > 0 && h + 1 == c * n && s < n && b < h
    ensures var k := KeyFor(n, h, base, s, b); base <= k < base + n * h && k % n == s && k % h == b
  {
    SolveOk(n, c, h, s, b);
    var x, m := Solve(n, h, s, b), n * h;
    var q := (x - base) / m;
    assert x - base == m * q + (x - base) % m;
    var k := KeyFor(n, h, base, s, b);
    assert k == x - m * q;
    assert m * q == n * (h * q) && m * q == h * (n * q) by { Assoc(n, h, q); Commute(n, h, q); }
    AddMultiple(x, n, -(h * q));
    AddMultiple(x, h, -(n * q));
    assert n * -(h * q) == -(m * q) && h * -(n * q) == -(m * q) by { Negate(n, h * q); Negate(h, n * q); }
  }

  lemma Negate(a: int, b: int)
    ensures a * -b == -(a * b)
  {
  }

  lemma QuotientRange(h: nat, q: int, n: nat)
    requires h > 0 && 0 <= h * q < n * h
    ensures 0 <= q < n
  {
    Multiple(h, q);
    Multiple(h, q - n + 1);
    assert h * (q - n + 1) == h * q - h * n + h;
  }

  lemma OneKeyPerPair(n: nat, c: nat, h: nat, base: nat, x: nat, y: nat)
    requires n > 0 && h > 0 && h + 1 == c * n
    requires base <= x <= y < base + n * h && x % n == y % n && x % h == y % h
    ensures x == y
  {
    var i := SameMod(y, x, n);
    var q := SameMod(y, x, h);
    QuotientRange(h, q, n);
    // n divides h * q == (c * n - 1) * q, so it divides q, and 0 <= q < n
    Expand(c, n, q);
    assert (c * n - 1) * q == h * q;
    DividesSmall(n, q, c * q - i);
  }

  lemma DividesSmall(n: nat, q: nat, k: int)
    requires q < n && n * k == q
    ensures q == 0
  {
    Multiple(n, k);
  }

  predicate Placed(key: nat, nservers: nat, nhash: nat, server: nat, bucket: nat)
    requires nservers > 0 && nhash > 0
  {
    System.ServerOf(key, nservers) == server && BucketOf(key, nhash) == bucket
  }

  /** Unbiased placement: in every block of nservers * nhash consecutive keys each
      (server, bucket) pair receives exactly one key. */
  lemma UnbiasedPlacement(maxSize: nat, nservers: nat, base: nat, server: nat, bucket: nat)
    requires nservers > 0 && server < nservers && bucket < NHash(maxSize, nservers)
    ensures var h := NHash(maxSize, nservers);
            && h > 0
            && (exists key :: base <= key < base + nservers * h && Placed(key, nservers, h, server, bucket))
            && (forall x, y ::
                  (base <= x < base + nservers * h && base <= y < base + nservers * h
                   && Placed(x, nservers, h, server, bucket) && Placed(y, nservers, h, server, bucket)) ==> x == y)
  {
    NHashCoprime(maxSize, nservers);
    var h, c := NHash(maxSize, nservers), Groups(maxSize, nservers);
    Multiple(nservers, h);
    KeyForOk(nservers, c, h, base, server, bucket);
    var key := KeyFor(nservers, h, base, server, bucket);
    assert Placed(key, nservers, h, server, bucket);
    forall x, y | base <= x < base + nservers * h && base <= y < base + nservers * h
        && Placed(x, nservers, h, server, bucket) && Placed(y, nservers, h, server, bucket)
      ensures x == y
    {
      if x <= y { OneKeyPerPair(nservers, c, h, base, x, y); } else { OneKeyPerPair(nservers, c, h, base, y, x); }
    }
  }
}
