/**
 * A seeded pseudo-random generator. SHA-256 of a seed string followed by
 * Python's Mersenne Twister is modelled as an arbitrary deterministic stream
 * of raw draws; a generator is that stream plus the number of draws taken.
 * `randint` and `shuffle` (Fisher-Yates, as `random.shuffle` runs it) are
 * written over the stream.
 */
module Random {

  datatype Rng = Rng(draws: nat -> nat, used: nat)

  /** A fresh generator over a seed's stream. */
  function Seeded(stream: nat -> nat): (g: Rng)
    ensures g.used == 0
  {
    Rng(stream, 0)
  }

  /** `rng.randint(lo, hi)`: one draw, inside the closed range. */
  function RandInt(g: Rng, lo: int, hi: int): (r: (int, Rng))
    requires lo <= hi
    ensures lo <= r.0 <= hi
    ensures r.1.draws == g.draws && r.1.used == g.used + 1
  {
    (lo + g.draws(g.used) % (hi - lo + 1), Rng(g.draws, g.used + 1))
  }

  /** The `_randbelow(n)` that `shuffle` uses: one draw in `[0, n)`. */
  function RandBelow(g: Rng, n: nat): (r: (nat, Rng))
    requires n >= 1
    ensures r.0 < n
    ensures r.1.draws == g.draws && r.1.used == g.used + 1
  {
    (g.draws(g.used) % n, Rng(g.draws, g.used + 1))
  }

  function Swap<T>(s: seq<T>, i: nat, j: nat): (t: seq<T>)
    requires i < |s| && j < |s|
    ensures |t| == |s|
  {
    s[i := s[j]][j := s[i]]
  }

  /** The Fisher-Yates passes for positions `i, i-1, ..., 1`. */
  function ShuffleFrom<T>(s: seq<T>, i: nat, g: Rng): (r: (seq<T>, Rng))
    requires i < |s|
    ensures |r.0| == |s|
    decreases i
  {
    if i == 0 then (s, g)
    else
      var (j, g') := RandBelow(g, i + 1);
      ShuffleFrom(Swap(s, i, j), i - 1, g')
  }

  /** `rng.shuffle(x)` applied to a copy of `s`: the shuffled list and the
      generator after it. */
  function Shuffled<T>(s: seq<T>, g: Rng): (r: (seq<T>, Rng))
    ensures |r.0| == |s|
  {
    if |s| <= 1 then (s, g) else ShuffleFrom(s, |s| - 1, g)
  }

  predicate NoDuplicates<T(==)>(s: seq<T>) {
    forall p, q :: 0 <= p < q < |s| ==> s[p] != s[q]
  }

  lemma SwapKeepsNoDuplicates<T>(s: seq<T>, i: nat, j: nat)
    requires i < |s| && j < |s| && NoDuplicates(s)
    ensures NoDuplicates(Swap(s, i, j))
  {
    var t := Swap(s, i, j);
    forall p, q | 0 <= p < q < |t| ensures t[p] != t[q] {
      var p' := if p == i then j else if p == j then i else p;
      var q' := if q == i then j else if q == j then i else q;
      assert t[p] == s[p'] && t[q] == s[q'];
      assert p' != q';
    }
  }

  lemma SwapKeepsMultiset<T>(s: seq<T>, i: nat, j: nat)
    requires i < |s| && j < |s|
    ensures multiset(Swap(s, i, j)) == multiset(s)
  {
  }

  /** A shuffle is a permutation of its input. */
  lemma {:induction false} ShuffleFromPermutes<T>(s: seq<T>, i: nat, g: Rng)
    requires i < |s|
    ensures multiset(ShuffleFrom(s, i, g).0) == multiset(s)
    ensures NoDuplicates(s) ==> NoDuplicates(ShuffleFrom(s, i, g).0)
    decreases i
  {
    if i > 0 {
      var (j, g') := RandBelow(g, i + 1);
      SwapKeepsMultiset(s, i, j);
      if NoDuplicates(s) {
        SwapKeepsNoDuplicates(s, i, j);
      }
      ShuffleFromPermutes(Swap(s, i, j), i - 1, g');
    }
  }

  lemma ShuffledPermutes<T>(s: seq<T>, g: Rng)
    ensures multiset(Shuffled(s, g).0) == multiset(s)
    ensures NoDuplicates(s) ==> NoDuplicates(Shuffled(s, g).0)
  {
    if |s| > 1 {
      ShuffleFromPermutes(s, |s| - 1, g);
    }
  }

  /** `random.shuffle`, in place on the list. */
  method Shuffle<T>(a: array<T>, g: Rng) returns (g': Rng)
    modifies a
    ensures a[..] == Shuffled(old(a[..]), g).0
    ensures g' == Shuffled(old(a[..]), g).1
  {
    if a.Length <= 1 {
      return g;
    }
    ghost var goal := Shuffled(a[..], g);
    var i := a.Length - 1;
    g' := g;
    while i > 0
      invariant 0 <= i < a.Length
      invariant ShuffleFrom(a[..], i, g') == goal
    {
      var r := RandBelow(g', i + 1);
      var j := r.0;
      ghost var before := a[..];
      a[i], a[j] := a[j], a[i];
      assert a[..] == Swap(before, i, j);
      g' := r.1;
      i := i - 1;
    }
  }
}
