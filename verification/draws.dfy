/** The pseudo-random generator behind every randomiser (`random.Random`),
    reduced to an abstract draw stream. A generator's state is its seed and
    how many draws it has consumed; the oracle says what each draw is. Only
    the use the randomisers make of the primitives `randint`, `choice`,
    `choices` and `sample` is modelled: which positions of a population
    they pick, and how far they advance the stream. */
module Draws {

  /** `random.Random(x=seed)`: a given seed, or process entropy when the seed is
      `None` (a stream of its own for each generator, named by the object). */
  datatype Seed = Fixed(value: int) | Entropy(owner: nat)

  datatype Rng = Rng(seed: Seed, pos: nat)

  /** The draw stream: the draw at each position of each seed's stream. */
  type Oracle = (Seed, nat) -> nat

  /** One uniform draw from `[0, n)`. */
  function Below(o: Oracle, g: Rng, n: nat): (r: (nat, Rng))
    requires n > 0
    ensures r.0 < n
    ensures r.1 == Rng(g.seed, g.pos + 1)
  {
    (o(g.seed, g.pos) % n, Rng(g.seed, g.pos + 1))
  }

  predicate Distinct(ps: seq<nat>) {
    forall i, j :: 0 <= i < j < |ps| ==> ps[i] != ps[j]
  }

  /** Positions picked by `choices(population, k=k)` from a population of
      size `n > 0`: `k` independent draws, with replacement, in draw order. */
  function ChoicePositions(o: Oracle, g: Rng, n: nat, k: nat): (r: (seq<nat>, Rng))
    requires n > 0
    ensures |r.0| == k
    ensures forall i :: 0 <= i < k ==> r.0[i] < n
    ensures r.1 == Rng(g.seed, g.pos + k)
    decreases k
  {
    if k == 0 then ([], g)
    else
      var (p, g1) := Below(o, g, n);
      var (ps, g2) := ChoicePositions(o, g1, n, k - 1);
      ([p] + ps, g2)
  }

  /** The positions `0 .. n-1` of a population. */
  function Positions(n: nat): (ps: seq<nat>)
    ensures |ps| == n && Distinct(ps)
    ensures forall i :: 0 <= i < n ==> ps[i] == i
  {
    seq(n, i requires 0 <= i < n => i)
  }

  /** Draws `k` positions out of `pool` without replacement: each draw takes one
      of the positions still in the pool and removes it. */
  function Pick(o: Oracle, g: Rng, pool: seq<nat>, k: nat): (r: (seq<nat>, Rng))
    requires k <= |pool| && Distinct(pool)
    ensures |r.0| == k && Distinct(r.0)
    ensures forall i :: 0 <= i < k ==> r.0[i] in pool
    ensures r.1 == Rng(g.seed, g.pos + k)
    decreases k
  {
    if k == 0 then ([], g)
    else
      var (j, g1) := Below(o, g, |pool|);
      var rest := pool[..j] + pool[j + 1..];
      assert forall x :: x in rest ==> x in pool && x != pool[j];
      var (ps, g2) := Pick(o, g1, rest, k - 1);
      ([pool[j]] + ps, g2)
  }

  /** Positions picked by `sample(population, k=k)` from a population of size
      `n`, for `0 <= k <= n`: `k` distinct positions. */
  function SamplePositions(o: Oracle, g: Rng, n: nat, k: nat): (r: (seq<nat>, Rng))
    requires k <= n
    ensures |r.0| == k && Distinct(r.0)
    ensures forall i :: 0 <= i < k ==> r.0[i] < n
    ensures r.1 == Rng(g.seed, g.pos + k)
  {
    Pick(o, g, Positions(n), k)
  }
}
