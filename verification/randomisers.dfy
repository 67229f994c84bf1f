/** The randomisers: `ArgumentRandomiser` (the base, which cannot generate),
    `IntRandomiser` and `SelectionRandomiser`.

    A randomiser is an object with its own generator state. The objects alive
    in the process form a `Store`, indexed by identity; generating a value
    threads the store, because a call advances the caller's generator and,
    through resolve-on-read, the generators of the randomisers nested in its
    parameters. A randomiser's parameters are fixed when it is constructed and
    can only mention randomisers constructed before it. */
module Randomisers {
  import opened Values
  import opened Draws
  import opened Ordering

  datatype Kind =
    | Base
    | IntKind(low: Value, high: Value, size: Value, ordered: Value)
    | SelectionKind(source: Value, size: Value, replacement: Value)

  datatype Randomiser = Randomiser(kind: Kind, rng: Rng)

  type Store = seq<Randomiser>

  /** The exceptions a generation can raise: `NotImplementedError` from the base
      class, `ValueError` for an empty `randint` range and for an oversized or
      negative sample, `IndexError` for drawing from an empty population,
      `TypeError` for parameters of the wrong type, and `OverflowError` for a
      count `choices` cannot hold in a C `Py_ssize_t`. */
  datatype Error = NotImplemented | EmptyRange | EmptyPopulation | SampleTooLarge | TypeMismatch | Overflow

  /** `sys.maxsize` of a 64-bit CPython, the largest `Py_ssize_t`. */
  const MaxSize: int := 0x7FFF_FFFF_FFFF_FFFF

  /** `n` converts to a `Py_ssize_t`, as `itertools.repeat(None, n)` needs. */
  predicate FitsSsize(n: int) {
    -MaxSize - 1 <= n <= MaxSize
  }

  /** `len(range(low, high + 1))` fits a `Py_ssize_t`: the range has at most
      `sys.maxsize` members. */
  predicate RangeFits(low: int, high: int) {
    high - low + 1 <= MaxSize
  }

  datatype Result<T> = Ok(value: T) | Err(error: Error)

  /** What a step produced, and the store after it: a failing step may already
      have advanced some generators. */
  datatype Step<T> = Step(result: Result<T>, store: Store)

  /** `IntRandomiser(low, high, size=None, ordered=True)` */
  function IntRandomiser(low: Value, high: Value, size: Value := NoneV, ordered: Value := BoolV(true)): Kind {
    IntKind(low, high, size, ordered)
  }

  /** `SelectionRandomiser(source, size=None, replacement=False)` */
  function SelectionRandomiser(source: Value, size: Value := NoneV, replacement: Value := BoolV(false)): Kind {
    SelectionKind(source, size, replacement)
  }

  predicate KindRefsBelow(k: Kind, b: nat) {
    match k
    case Base => true
    case IntKind(low, high, size, ordered) =>
      RefsBelow(low, b) && RefsBelow(high, b) && RefsBelow(size, b) && RefsBelow(ordered, b)
    case SelectionKind(source, size, replacement) =>
      RefsBelow(source, b) && RefsBelow(size, b) && RefsBelow(replacement, b)
  }

  /** Each randomiser's parameters mention only randomisers constructed before it. */
  predicate WellFormed(s: Store) {
    forall i :: 0 <= i < |s| ==> KindRefsBelow(s[i].kind, i)
  }

  /** `t` is `s` after some generations: the same objects with the same
      parameters and seeds, each generator at the same or a later position. */
  predicate Evolves(s: Store, t: Store) {
    && |s| == |t|
    && forall i :: 0 <= i < |s| ==>
         t[i].kind == s[i].kind && t[i].rng.seed == s[i].rng.seed && s[i].rng.pos <= t[i].rng.pos
  }

  /** Every object from identity `n` on is as it was in `s`, generator included. */
  predicate UnchangedFrom(s: Store, t: Store, n: nat) {
    |s| == |t| && forall k :: n <= k < |s| ==> t[k] == s[k]
  }

  /** Constructs a randomiser: `random.Random.__init__(x=seed)` with the given
      parameters, appended to the store as a new object. */
  function Construct(s: Store, kind: Kind, seed: Option<int>): (r: (Store, nat))
    requires WellFormed(s) && KindRefsBelow(kind, |s|)
    ensures WellFormed(r.0)
    ensures r.1 == |s| && |r.0| == |s| + 1 && r.0[..|s|] == s
    ensures r.0[r.1].kind == kind && r.0[r.1].rng.pos == 0
    ensures seed.Some? ==> r.0[r.1].rng.seed == Fixed(seed.value)
  {
    var g := Rng(if seed.Some? then Fixed(seed.value) else Entropy(|s|), 0);
    (s + [Randomiser(kind, g)], |s|)
  }

  /** Reading a parameter (`ArgumentRandomiser.__getattribute__`): a parameter
      that is a randomiser is called, afresh on every read. */
  function ReadAttr(v: Value, s: Store, o: Oracle, owner: nat): (r: Step<Value>)
    requires WellFormed(s) && owner <= |s| && RefsBelow(v, owner)
    ensures Evolves(s, r.store)
    ensures r.result.Ok? ==> RefsBelow(r.result.value, |s|)
    ensures !v.Rand? ==> r == Step(Ok(v), s)
    ensures v.Rand? ==> r == Generate(v.id, s, o)
    ensures UnchangedFrom(s, r.store, owner)
    decreases owner, 0
  {
    if v.Rand? then Generate(v.id, s, o)
    else
      RefsBelowMonotone(v, owner, |s|);
      Step(Ok(v), s)
  }

  /** Calls the randomiser `id` (`__call__`). */
  function Generate(id: nat, s: Store, o: Oracle): (r: Step<Value>)
    requires WellFormed(s) && id < |s|
    ensures Evolves(s, r.store)
    ensures r.result.Ok? ==> RefsBelow(r.result.value, |s|)
    ensures UnchangedFrom(s, r.store, id + 1)
    ensures s[id].kind.Base? ==> r == Step(Err(NotImplemented), s)
    decreases id, 4
  {
    match s[id].kind
    case Base => Step(Err(NotImplemented), s)
    case IntKind(_, _, _, _) => CallInt(id, s, o)
    case SelectionKind(_, _, _) => CallSelection(id, s, o)
  }

  /** `randint(low, high)`: one integer of `[low, high]`. */
  function RandInt(o: Oracle, g: Rng, low: Value, high: Value): (r: Result<(int, Rng)>)
    ensures r.Ok? <==> AsInt(low).Some? && AsInt(high).Some? && AsInt(low).value <= AsInt(high).value
    ensures r.Ok? ==> AsInt(low).value <= r.value.0 <= AsInt(high).value
    ensures r.Ok? ==> r.value.1 == Rng(g.seed, g.pos + 1)
    ensures AsInt(low).None? || AsInt(high).None? ==> r == Err(TypeMismatch)
    ensures r.Err? && AsInt(low).Some? && AsInt(high).Some? ==> r == Err(EmptyRange)
  {
    match (AsInt(low), AsInt(high))
    case (Some(lo), Some(hi)) =>
      if lo > hi then Err(EmptyRange)
      else
        var (p, g1) := Below(o, g, hi - lo + 1);
        Ok((lo + p, g1))
    case _ => Err(TypeMismatch)
  }

  /** `choices(range(low, high + 1), k=size)`: the drawn integers in draw order.
      `choices` first takes `len` of the range, then repeats `size` times; each
      must fit a `Py_ssize_t`, whether or not anything would be drawn. */
  function ChoicesRange(o: Oracle, g: Rng, low: Value, high: Value, size: Value): (r: Result<(seq<int>, Rng)>)
    ensures r.Ok? <==>
      && AsInt(low).Some? && AsInt(high).Some? && AsInt(size).Some?
      && RangeFits(AsInt(low).value, AsInt(high).value) && FitsSsize(AsInt(size).value)
      && (AsInt(size).value <= 0 || AsInt(low).value <= AsInt(high).value)
    ensures r.Ok? ==>
      var k := AsInt(size).value;
      && |r.value.0| == (if k < 0 then 0 else k)
      && (forall i :: 0 <= i < |r.value.0| ==> AsInt(low).value <= r.value.0[i] <= AsInt(high).value)
      && r.value.1 == Rng(g.seed, g.pos + |r.value.0|)
    ensures AsInt(low).None? || AsInt(high).None? ==> r == Err(TypeMismatch)
    ensures AsInt(low).Some? && AsInt(high).Some? && !RangeFits(AsInt(low).value, AsInt(high).value) ==>
      r == Err(Overflow)
    ensures AsInt(low).Some? && AsInt(high).Some? && RangeFits(AsInt(low).value, AsInt(high).value) ==>
      && (AsInt(size).None? ==> r == Err(TypeMismatch))
      && (AsInt(size).Some? && !FitsSsize(AsInt(size).value) ==> r == Err(Overflow))
      && (AsInt(size).Some? && FitsSsize(AsInt(size).value) && r.Err? ==> r == Err(EmptyPopulation))
  {
    match (AsInt(low), AsInt(high))
    case (Some(lo), Some(hi)) =>
      if !RangeFits(lo, hi) then Err(Overflow)
      else if AsInt(size).None? then Err(TypeMismatch)
      else
        var k := AsInt(size).value;
        if !FitsSsize(k) then Err(Overflow)
        else if k <= 0 then Ok(([], g))
        else if lo > hi then Err(EmptyPopulation)
        else
          var (ps, g1) := ChoicePositions(o, g, hi - lo + 1, k);
          Ok((seq(k, i requires 0 <= i < k => lo + ps[i]), g1))
    case _ => Err(TypeMismatch)
  }

  /** `choice(population)`: one member of a non-empty sequence. */
  function Choice(o: Oracle, g: Rng, population: Value): (r: Result<(Value, Rng)>)
    ensures r.Ok? <==> AsSeq(population).Some? && |AsSeq(population).value| > 0
    ensures r.Ok? ==> r.value.0 in AsSeq(population).value && r.value.1 == Rng(g.seed, g.pos + 1)
    ensures AsSeq(population).None? ==> r == Err(TypeMismatch)
    ensures AsSeq(population).Some? && r.Err? ==> r == Err(EmptyPopulation)
  {
    match AsSeq(population)
    case None => Err(TypeMismatch)
    case Some(items) =>
      if |items| == 0 then Err(EmptyPopulation)
      else
        var (p, g1) := Below(o, g, |items|);
        Ok((items[p], g1))
  }

  /** `choices(population, k=size)`: `size` members, drawn with replacement. A
      size that does not fit a `Py_ssize_t` fails before any draw; `len` of a
      list, tuple or string always fits. */
  function Choices(o: Oracle, g: Rng, population: Value, size: Value): (r: Result<(seq<Value>, Rng)>)
    ensures r.Ok? <==>
      && AsSeq(population).Some? && AsInt(size).Some? && FitsSsize(AsInt(size).value)
      && (AsInt(size).value <= 0 || |AsSeq(population).value| > 0)
    ensures r.Ok? ==>
      var k := AsInt(size).value;
      && |r.value.0| == (if k < 0 then 0 else k)
      && (forall i :: 0 <= i < |r.value.0| ==> r.value.0[i] in AsSeq(population).value)
      && r.value.1 == Rng(g.seed, g.pos + |r.value.0|)
    ensures AsSeq(population).None? || AsInt(size).None? ==> r == Err(TypeMismatch)
    ensures AsSeq(population).Some? && AsInt(size).Some? && !FitsSsize(AsInt(size).value) ==> r == Err(Overflow)
    ensures r.Err? && AsSeq(population).Some? && AsInt(size).Some? && FitsSsize(AsInt(size).value) ==>
      r == Err(EmptyPopulation)
  {
    match (AsSeq(population), AsInt(size))
    case (Some(items), Some(k)) =>
      if !FitsSsize(k) then Err(Overflow)
      else if k <= 0 then Ok(([], g))
      else if |items| == 0 then Err(EmptyPopulation)
      else
        var (ps, g1) := ChoicePositions(o, g, |items|, k);
        Ok((seq(k, i requires 0 <= i < k => items[ps[i]]), g1))
    case _ => Err(TypeMismatch)
  }

  /** `out[i]` is the member of `items` at position `ps[i]`. */
  predicate TakenAt(items: seq<Value>, ps: seq<nat>, out: seq<Value>) {
    |ps| == |out| && forall i :: 0 <= i < |ps| ==> ps[i] < |items| && out[i] == items[ps[i]]
  }

  /** `out` is taken from distinct positions of `items`. */
  ghost predicate SampledFrom(items: seq<Value>, out: seq<Value>) {
    exists ps :: Distinct(ps) && TakenAt(items, ps, out)
  }

  /** `sample(population, k=size)`: `size` members taken from distinct positions. */
  function Sample(o: Oracle, g: Rng, population: Value, size: Value): (r: Result<(seq<Value>, Rng)>)
    ensures r.Ok? <==>
      && AsSeq(population).Some? && AsInt(size).Some?
      && 0 <= AsInt(size).value <= |AsSeq(population).value|
    ensures r.Ok? ==>
      && |r.value.0| == AsInt(size).value
      && SampledFrom(AsSeq(population).value, r.value.0)
      && (forall i :: 0 <= i < |r.value.0| ==> r.value.0[i] in AsSeq(population).value)
      && r.value.1 == Rng(g.seed, g.pos + |r.value.0|)
    ensures AsSeq(population).None? || AsInt(size).None? ==> r == Err(TypeMismatch)
    ensures r.Err? && AsSeq(population).Some? && AsInt(size).Some? ==> r == Err(SampleTooLarge)
  {
    match (AsSeq(population), AsInt(size))
    case (Some(items), Some(k)) =>
      if !(0 <= k <= |items|) then Err(SampleTooLarge)
      else
        var (ps, g1) := SamplePositions(o, g, |items|, k);
        var out := seq(k, i requires 0 <= i < k => items[ps[i]]);
        assert TakenAt(items, ps, out);
        Ok((out, g1))
    case _ => Err(TypeMismatch)
  }

  function IntsOf(xs: seq<int>): (r: seq<Value>)
    ensures |r| == |xs| && forall i :: 0 <= i < |xs| ==> r[i] == IntV(xs[i])
  {
    seq(|xs|, i requires 0 <= i < |xs| => IntV(xs[i]))
  }

  /** `s` after the generator of `id` moved on to `g`, a later state of its stream. */
  function Advance(s: Store, id: nat, g: Rng): (t: Store)
    requires id < |s| && g.seed == s[id].rng.seed && s[id].rng.pos <= g.pos
    ensures Evolves(s, t)
    ensures WellFormed(s) ==> WellFormed(t)
  {
    s[id := Randomiser(s[id].kind, g)]
  }

  lemma {:induction false} EvolvesTrans(a: Store, b: Store, c: Store)
    requires Evolves(a, b) && Evolves(b, c)
    ensures Evolves(a, c)
  {
  }

  lemma {:induction false} EvolvesWellFormed(s: Store, t: Store)
    requires WellFormed(s) && Evolves(s, t)
    ensures WellFormed(t)
  {
  }

  /** `IntRandomiser.__call__`: reads `low`, `high` and `size`, then draws. */
  function CallInt(id: nat, s: Store, o: Oracle): (r: Step<Value>)
    requires WellFormed(s) && id < |s| && s[id].kind.IntKind?
    ensures Evolves(s, r.store)
    ensures r.result.Ok? ==> RefsBelow(r.result.value, |s|)
    ensures UnchangedFrom(s, r.store, id + 1)
    decreases id, 3
  {
    var k := s[id].kind;
    var lo := ReadAttr(k.low, s, o, id);
    if lo.result.Err? then lo else
    EvolvesWellFormed(s, lo.store);
    var hi := ReadAttr(k.high, lo.store, o, id);
    if hi.result.Err? then EvolvesTrans(s, lo.store, hi.store); hi else
    EvolvesTrans(s, lo.store, hi.store);
    EvolvesWellFormed(s, hi.store);
    var sz := ReadAttr(k.size, hi.store, o, id);
    EvolvesTrans(s, hi.store, sz.store);
    if sz.result.Err? then sz else
    EvolvesWellFormed(s, sz.store);
    var r := IntDraw(id, lo.result.value, hi.result.value, sz.result.value, sz.store, o);
    EvolvesTrans(s, sz.store, r.store);
    r
  }

  /** `IntRandomiser.__call__` once `low`, `high` and `size` are read: without a
      size, one `randint`; with one, the tuple `IntTuple` builds. */
  function IntDraw(id: nat, low: Value, high: Value, size: Value, s: Store, o: Oracle): (r: Step<Value>)
    requires WellFormed(s) && id < |s| && s[id].kind.IntKind?
    ensures Evolves(s, r.store)
    ensures r.result.Ok? ==> RefsBelow(r.result.value, |s|)
    ensures UnchangedFrom(s, r.store, id + 1)
    decreases id, 2
  {
    if size.NoneV? then
      match RandInt(o, s[id].rng, low, high)
      case Err(e) => Step(Err(e), s)
      case Ok((x, g)) => Step(Ok(IntV(x)), Advance(s, id, g))
    else IntTuple(id, low, high, size, s, o)
  }

  /** The sized half of `IntRandomiser.__call__`: `choices` over
      `range(low, high + 1)`, then reads `ordered` and arranges the draws. */
  function IntTuple(id: nat, low: Value, high: Value, size: Value, s: Store, o: Oracle): (r: Step<Value>)
    requires WellFormed(s) && id < |s| && s[id].kind.IntKind?
    ensures Evolves(s, r.store)
    ensures r.result.Ok? ==> RefsBelow(r.result.value, |s|)
    ensures UnchangedFrom(s, r.store, id + 1)
    decreases id, 1
  {
    match ChoicesRange(o, s[id].rng, low, high, size)
    case Err(e) => Step(Err(e), s)
    case Ok((drawn, g)) =>
      var s4 := Advance(s, id, g);
      var ord := ReadAttr(s[id].kind.ordered, s4, o, id);
      EvolvesTrans(s, s4, ord.store);
      if ord.result.Err? then ord else
      var descending := AsInt(low).value > AsInt(high).value;
      Step(Ok(TupleV(IntsOf(Arrange(drawn, Truthy(ord.result.value), descending)))), ord.store)
  }

  /** `SelectionRandomiser.__call__`: reads `source` and `size`, then draws. */
  function CallSelection(id: nat, s: Store, o: Oracle): (r: Step<Value>)
    requires WellFormed(s) && id < |s| && s[id].kind.SelectionKind?
    ensures Evolves(s, r.store)
    ensures r.result.Ok? ==> RefsBelow(r.result.value, |s|)
    ensures UnchangedFrom(s, r.store, id + 1)
    decreases id, 3
  {
    var k := s[id].kind;
    var src := ReadAttr(k.source, s, o, id);
    if src.result.Err? then src else
    EvolvesWellFormed(s, src.store);
    var sz := ReadAttr(k.size, src.store, o, id);
    EvolvesTrans(s, src.store, sz.store);
    if sz.result.Err? then sz else
    EvolvesWellFormed(s, sz.store);
    var r := SelectionDraw(id, src.result.value, sz.result.value, sz.store, o);
    EvolvesTrans(s, sz.store, r.store);
    r
  }

  /** `SelectionRandomiser.__call__` once `source` and `size` are read: without
      a size, one `choice`; with one, the tuple `SelectionTuple` builds. */
  function SelectionDraw(id: nat, source: Value, size: Value, s: Store, o: Oracle): (r: Step<Value>)
    requires WellFormed(s) && id < |s| && s[id].kind.SelectionKind? && RefsBelow(source, |s|)
    ensures Evolves(s, r.store)
    ensures r.result.Ok? ==> RefsBelow(r.result.value, |s|)
    ensures UnchangedFrom(s, r.store, id + 1)
    decreases id, 2
  {
    if size.NoneV? then
      AsSeqRefsIfAny(source, |s|);
      match Choice(o, s[id].rng, source)
      case Err(e) => Step(Err(e), s)
      case Ok((x, g)) => Step(Ok(x), Advance(s, id, g))
    else SelectionTuple(id, source, size, s, o)
  }

  /** The sized half of `SelectionRandomiser.__call__`: reads `replacement`,
      then `choices` when it is truthy and `sample` otherwise. */
  function SelectionTuple(id: nat, source: Value, size: Value, s: Store, o: Oracle): (r: Step<Value>)
    requires WellFormed(s) && id < |s| && s[id].kind.SelectionKind? && RefsBelow(source, |s|)
    ensures Evolves(s, r.store)
    ensures r.result.Ok? ==> RefsBelow(r.result.value, |s|)
    ensures UnchangedFrom(s, r.store, id + 1)
    decreases id, 1
  {
    var rep := ReadAttr(s[id].kind.replacement, s, o, id);
    if rep.result.Err? then rep else
    var r := SelectionPick(id, source, size, rep.result.value, rep.store, o);
    EvolvesTrans(s, rep.store, r.store);
    r
  }

  /** The draw of `SelectionTuple` once `replacement` is read: `choices` when it
      is truthy and `sample` otherwise, from this randomiser's generator alone. */
  function SelectionPick(id: nat, source: Value, size: Value, replacement: Value, s: Store, o: Oracle): (r: Step<Value>)
    requires id < |s| && RefsBelow(source, |s|)
    ensures Evolves(s, r.store)
    ensures r.result.Ok? ==> RefsBelow(r.result.value, |s|)
    ensures UnchangedFrom(s, r.store, id + 1)
  {
    AsSeqRefsIfAny(source, |s|);
    var drawn := if Truthy(replacement)
      then Choices(o, s[id].rng, source, size)
      else Sample(o, s[id].rng, source, size);
    match drawn
    case Err(e) => Step(Err(e), s)
    case Ok((out, g)) => Step(Ok(TupleV(out)), Advance(s, id, g))
  }

  lemma AsSeqRefsIfAny(v: Value, b: nat)
    requires RefsBelow(v, b)
    ensures AsSeq(v).Some? ==> AllRefsBelow(AsSeq(v).value, b)
  {
    if AsSeq(v).Some? { AsSeqRefs(v, b); }
  }
}
