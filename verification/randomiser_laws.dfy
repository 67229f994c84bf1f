/** What a call of each randomiser promises when its parameters are plain
    values, derived from the laws of `DrawLaws` for any values read, and what
    nesting adds: a parameter that is a randomiser is called on every read and
    the draw works on the value it returned. */
module RandomiserLaws {
  import opened Values
  import opened Draws
  import opened Ordering
  import opened Randomisers
  import opened DrawLaws

  /** With bounds and size that are not randomisers, `IntRandomiser.__call__`
      reads them without drawing: it is one `randint`, or `IntTuple` on the
      store as it was. */
  lemma {:induction false} IntPlainCall(id: nat, s: Store, o: Oracle)
    requires WellFormed(s) && id < |s| && s[id].kind.IntKind?
    requires !s[id].kind.low.Rand? && !s[id].kind.high.Rand? && !s[id].kind.size.Rand?
    ensures
      var k := s[id].kind;
      Generate(id, s, o) ==
        if k.size.NoneV? then
          match RandInt(o, s[id].rng, k.low, k.high)
          case Err(e) => Step(Err(e), s)
          case Ok((x, g)) => Step(Ok(IntV(x)), s[id := Randomiser(k, g)])
        else IntTuple(id, k.low, k.high, k.size, s, o)
    ensures Generate(id, s, o) == IntDraw(id, s[id].kind.low, s[id].kind.high, s[id].kind.size, s, o)
  {
    var k := s[id].kind;
    assert Generate(id, s, o) == CallInt(id, s, o);
    assert ReadAttr(k.low, s, o, id) == Step(Ok(k.low), s);
    assert ReadAttr(k.high, s, o, id) == Step(Ok(k.high), s);
    assert ReadAttr(k.size, s, o, id) == Step(Ok(k.size), s);
    assert CallInt(id, s, o) == IntDraw(id, k.low, k.high, k.size, s, o);
  }

  /** With a source and size that are not randomisers, `SelectionRandomiser.__call__`
      reads them without drawing: it is one `choice`, or `SelectionTuple` on
      the store as it was. */
  lemma {:induction false} SelectionPlainCall(id: nat, s: Store, o: Oracle)
    requires WellFormed(s) && id < |s| && s[id].kind.SelectionKind?
    requires !s[id].kind.source.Rand? && !s[id].kind.size.Rand?
    ensures RefsBelow(s[id].kind.source, |s|)
    ensures
      var k := s[id].kind;
      Generate(id, s, o) ==
        if k.size.NoneV? then
          match Choice(o, s[id].rng, k.source)
          case Err(e) => Step(Err(e), s)
          case Ok((x, g)) => Step(Ok(x), s[id := Randomiser(k, g)])
        else SelectionTuple(id, k.source, k.size, s, o)
    ensures Generate(id, s, o) == SelectionDraw(id, s[id].kind.source, s[id].kind.size, s, o)
  {
    var k := s[id].kind;
    RefsBelowMonotone(k.source, id, |s|);
    assert Generate(id, s, o) == CallSelection(id, s, o);
    assert ReadAttr(k.source, s, o, id) == Step(Ok(k.source), s);
    assert ReadAttr(k.size, s, o, id) == Step(Ok(k.size), s);
    assert CallSelection(id, s, o) == SelectionDraw(id, k.source, k.size, s, o);
  }

  /** `IntRandomiser(low, high)` without a size: one integer of `[low, high]`,
      and an empty range (`low > high`) is an error. */
  lemma {:induction false} IntScalar(id: nat, s: Store, o: Oracle, lo: int, hi: int, ordered: Value)
    requires WellFormed(s) && id < |s|
    requires s[id].kind == IntKind(IntV(lo), IntV(hi), NoneV, ordered)
    ensures Generate(id, s, o).result.Ok? <==> lo <= hi
    ensures Generate(id, s, o).result.Ok? ==>
      && Generate(id, s, o).result.value.IntV?
      && lo <= Generate(id, s, o).result.value.i <= hi
      && AdvancedBy(s, Generate(id, s, o).store, id, 1)
    ensures Generate(id, s, o).result.Err? ==>
      Generate(id, s, o) == Step(Err(EmptyRange), s)
  {
    IntPlainCall(id, s, o);
    IntDrawScalar(id, IntV(lo), IntV(hi), s, o);
  }

  /** `IntRandomiser(low, high, size=k, ordered=...)`: a tuple of `k` integers of
      `[low, high]` (none when `k <= 0`), exactly the drawn ones, sorted
      ascending when `ordered` is truthy and kept in draw order otherwise. With
      `low > high` the pool `range(low, high + 1)` is empty, so a positive size
      fails; a pool of more than `sys.maxsize` integers, or a size beyond a
      `Py_ssize_t`, is an `OverflowError` whatever the size. */
  lemma {:induction false} IntSized(id: nat, s: Store, o: Oracle, lo: int, hi: int, k: int, ordered: Value)
    requires WellFormed(s) && id < |s|
    requires s[id].kind == IntKind(IntV(lo), IntV(hi), IntV(k), ordered) && !ordered.Rand?
    ensures Generate(id, s, o).result.Ok? <==> RangeFits(lo, hi) && FitsSsize(k) && (k <= 0 || lo <= hi)
    ensures Generate(id, s, o).result.Err? ==>
      Generate(id, s, o) == Step(Err(if RangeFits(lo, hi) && FitsSsize(k) then EmptyPopulation else Overflow), s)
    ensures Generate(id, s, o).result.Ok? ==>
      var n := if k < 0 then 0 else k;
      var drawn := ChoicesRange(o, s[id].rng, IntV(lo), IntV(hi), IntV(k)).value.0;
      && |drawn| == n
      && AdvancedBy(s, Generate(id, s, o).store, id, n)
      && exists xs ::
        && Generate(id, s, o).result.value == TupleV(IntsOf(xs))
        && ArrangedDraws(xs, drawn, lo, hi, Truthy(ordered))
  {
    IntPlainCall(id, s, o);
    var d := ChoicesRange(o, s[id].rng, IntV(lo), IntV(hi), IntV(k));
    if d.Ok? {
      IntTupleDrawn(id, s, o, lo, hi, k, ordered);
    } else {
      IntTupleChoicesFail(id, IntV(lo), IntV(hi), IntV(k), s, o);
    }
  }

  /** `IntTuple` once its draws succeeded, with an `ordered` that is not a
      randomiser: exactly the drawn integers, arranged by its truthiness. */
  lemma {:induction false} IntTupleDrawn(id: nat, s: Store, o: Oracle, lo: int, hi: int, k: int, ordered: Value)
    requires WellFormed(s) && id < |s|
    requires s[id].kind == IntKind(IntV(lo), IntV(hi), IntV(k), ordered) && !ordered.Rand?
    requires ChoicesRange(o, s[id].rng, IntV(lo), IntV(hi), IntV(k)).Ok?
    ensures
      var drawn := ChoicesRange(o, s[id].rng, IntV(lo), IntV(hi), IntV(k)).value.0;
      var r := IntTuple(id, IntV(lo), IntV(hi), IntV(k), s, o);
      && r.result.Ok?
      && AdvancedBy(s, r.store, id, |drawn|)
      && exists xs ::
        && r.result.value == TupleV(IntsOf(xs))
        && ArrangedDraws(xs, drawn, lo, hi, Truthy(ordered))
  {
    var (drawn, g) := ChoicesRange(o, s[id].rng, IntV(lo), IntV(hi), IntV(k)).value;
    IntTupleArranged(id, IntV(lo), IntV(hi), IntV(k), s, o);
    var s4 := Advance(s, id, g);
    assert ReadAttr(ordered, s4, o, id) == Step(Ok(ordered), s4);
  }

  /** What `IntTuple` returns once the draws succeeded, with an `ordered` that
      is not a randomiser: reading it draws nothing, and the tuple is the
      arranged draws. */
  lemma {:induction false} IntTupleValue(id: nat, s: Store, o: Oracle, lo: int, hi: int, k: int, ordered: Value)
    requires WellFormed(s) && id < |s|
    requires s[id].kind == IntKind(IntV(lo), IntV(hi), IntV(k), ordered) && !ordered.Rand?
    requires ChoicesRange(o, s[id].rng, IntV(lo), IntV(hi), IntV(k)).Ok?
    ensures
      var (drawn, g) := ChoicesRange(o, s[id].rng, IntV(lo), IntV(hi), IntV(k)).value;
      IntTuple(id, IntV(lo), IntV(hi), IntV(k), s, o)
        == Step(Ok(TupleV(IntsOf(Arrange(drawn, Truthy(ordered), lo > hi)))), s[id := Randomiser(s[id].kind, g)])
  {
    var (drawn, g) := ChoicesRange(o, s[id].rng, IntV(lo), IntV(hi), IntV(k)).value;
    var s4 := Advance(s, id, g);
    assert ReadAttr(s[id].kind.ordered, s4, o, id) == Step(Ok(ordered), s4);
  }

  /** The descending arrangement never shows: whenever a sized `IntRandomiser`
      with `low > high` succeeds, its result is the empty tuple, whatever
      `ordered` is, a nested randomiser included. */
  lemma {:induction false} DescendingBoundsYieldEmpty(id: nat, s: Store, o: Oracle, lo: int, hi: int, k: int, ordered: Value)
    requires WellFormed(s) && id < |s| && lo > hi
    requires s[id].kind == IntKind(IntV(lo), IntV(hi), IntV(k), ordered)
    requires Generate(id, s, o).result.Ok?
    ensures Generate(id, s, o).result.value == TupleV([])
  {
    IntPlainCall(id, s, o);
    IntTupleArranged(id, IntV(lo), IntV(hi), IntV(k), s, o);
    var d := ChoicesRange(o, s[id].rng, IntV(lo), IntV(hi), IntV(k));
    var xs :| Generate(id, s, o).result == Ok(TupleV(IntsOf(xs)))
      && ArrangedDraws(xs, d.value.0, lo, hi, Truthy(ReadAttr(ordered, Advance(s, id, d.value.1), o, id).result.value));
    assert xs == [];
  }

  /** `SelectionRandomiser(source)` without a size: one member of `source` (a
      list, a tuple, or a string, whose members are its one-character strings);
      an empty source is an error. */
  lemma {:induction false} SelectionScalar(id: nat, s: Store, o: Oracle, source: Value, src: seq<Value>, replacement: Value)
    requires WellFormed(s) && id < |s|
    requires s[id].kind == SelectionKind(source, NoneV, replacement) && AsSeq(source) == Some(src)
    ensures Generate(id, s, o).result.Ok? <==> |src| > 0
    ensures Generate(id, s, o).result.Ok? ==>
      Generate(id, s, o).result.value in src && AdvancedBy(s, Generate(id, s, o).store, id, 1)
    ensures Generate(id, s, o).result.Err? ==> Generate(id, s, o) == Step(Err(EmptyPopulation), s)
  {
    SelectionPlainCall(id, s, o);
    SelectionDrawScalar(id, source, s, o);
  }

  /** With a truthy `replacement`: a tuple of `size` members of `source` (none
      when `size <= 0`); a size beyond a `Py_ssize_t` is an `OverflowError`, and
      a positive size over an empty source an `IndexError`. */
  lemma {:induction false} SelectionWithReplacement(id: nat, s: Store, o: Oracle, source: Value, src: seq<Value>, k: int,
                                                    replacement: Value)
    requires WellFormed(s) && id < |s|
    requires s[id].kind == SelectionKind(source, IntV(k), replacement) && AsSeq(source) == Some(src)
    requires Truthy(replacement) && !replacement.Rand?
    ensures Generate(id, s, o).result.Ok? <==> FitsSsize(k) && (k <= 0 || |src| > 0)
    ensures Generate(id, s, o).result.Ok? ==>
      var out := Generate(id, s, o).result.value;
      && out.TupleV?
      && |out.items| == (if k < 0 then 0 else k)
      && (forall i :: 0 <= i < |out.items| ==> out.items[i] in src)
      && AdvancedBy(s, Generate(id, s, o).store, id, |out.items|)
    ensures Generate(id, s, o).result.Err? ==>
      Generate(id, s, o) == Step(Err(if FitsSsize(k) then EmptyPopulation else Overflow), s)
  {
    SelectionSizedValue(id, s, o, source, k, replacement);
    assert AsInt(IntV(k)) == Some(k);
    var d := Choices(o, s[id].rng, source, IntV(k));
    if d.Ok? {
      var t := s[id := Randomiser(s[id].kind, d.value.1)];
      assert Generate(id, s, o) == Step(Ok(TupleV(d.value.0)), t);
      assert AdvancedBy(s, t, id, |d.value.0|);
    }
  }

  /** `IntRandomiser(0, 2**64 - 1, size=k)()`: the pool has more than
      `sys.maxsize` integers, so the call is an `OverflowError` that draws
      nothing, even for `k == 0`. */
  lemma {:induction false} WideRangeOverflows(id: nat, s: Store, o: Oracle, k: int)
    requires WellFormed(s) && id < |s|
    requires s[id].kind == IntRandomiser(IntV(0), IntV(0x1_0000_0000_0000_0000 - 1), IntV(k))
    ensures Generate(id, s, o) == Step(Err(Overflow), s)
  {
    IntSized(id, s, o, 0, 0x1_0000_0000_0000_0000 - 1, k, BoolV(true));
  }

  /** `SelectionRandomiser(source, size=-2**64, replacement=True)()`: the size
      does not fit a `Py_ssize_t`, so the call is an `OverflowError` rather than
      an empty tuple. */
  lemma {:induction false} HugeNegativeSizeOverflows(id: nat, s: Store, o: Oracle, source: Value, src: seq<Value>)
    requires WellFormed(s) && id < |s|
    requires s[id].kind == SelectionRandomiser(source, IntV(-0x1_0000_0000_0000_0000), BoolV(true))
    requires AsSeq(source) == Some(src)
    ensures Generate(id, s, o) == Step(Err(Overflow), s)
  {
    SelectionWithReplacement(id, s, o, source, src, -0x1_0000_0000_0000_0000, BoolV(true));
  }

  /** With a falsy `replacement`: `size` members of `source` taken from
      distinct positions; a negative size or one beyond `len(source)` is an
      error. */
  lemma {:induction false} SelectionWithoutReplacement(id: nat, s: Store, o: Oracle, source: Value, src: seq<Value>, k: int,
                                                       replacement: Value)
    requires WellFormed(s) && id < |s|
    requires s[id].kind == SelectionKind(source, IntV(k), replacement) && AsSeq(source) == Some(src)
    requires !Truthy(replacement) && !replacement.Rand?
    ensures Generate(id, s, o).result.Ok? <==> 0 <= k <= |src|
    ensures Generate(id, s, o).result.Ok? ==>
      var out := Generate(id, s, o).result.value;
      && out.TupleV?
      && |out.items| == k
      && SampledFrom(src, out.items)
      && AdvancedBy(s, Generate(id, s, o).store, id, k)
    ensures Generate(id, s, o).result.Err? ==> Generate(id, s, o) == Step(Err(SampleTooLarge), s)
  {
    SelectionSizedValue(id, s, o, source, k, replacement);
    assert AsInt(IntV(k)) == Some(k);
    var d := Sample(o, s[id].rng, source, IntV(k));
    if d.Ok? {
      var t := s[id := Randomiser(s[id].kind, d.value.1)];
      assert Generate(id, s, o) == Step(Ok(TupleV(d.value.0)), t);
      assert AdvancedBy(s, t, id, |d.value.0|);
    }
  }

  /** With a size and a `replacement` that is not a randomiser, `Generate` is
      one `choices` (`replacement` truthy) or `sample` (falsy) call on the
      randomiser's own generator, which alone moves. */
  lemma {:induction false} SelectionSizedValue(id: nat, s: Store, o: Oracle, source: Value, k: int, replacement: Value)
    requires WellFormed(s) && id < |s|
    requires s[id].kind == SelectionKind(source, IntV(k), replacement) && AsSeq(source).Some?
    requires !replacement.Rand?
    ensures
      var d := if Truthy(replacement) then Choices(o, s[id].rng, source, IntV(k))
               else Sample(o, s[id].rng, source, IntV(k));
      Generate(id, s, o) ==
        if d.Err? then Step(Err(d.error), s)
        else Step(Ok(TupleV(d.value.0)), s[id := Randomiser(s[id].kind, d.value.1)])
  {
    SelectionPlainCall(id, s, o);
    assert ReadAttr(s[id].kind.replacement, s, o, id) == Step(Ok(replacement), s);
  }

  /** `SelectionRandomiser(source, size=k)` keeps the default `replacement=False`,
      so it samples: `k` members from distinct positions, and an oversized or
      negative size is an error. */
  lemma {:induction false} SelectionDefaultSamples(id: nat, s: Store, o: Oracle, source: Value, src: seq<Value>, k: int)
    requires WellFormed(s) && id < |s|
    requires s[id].kind == SelectionRandomiser(source, IntV(k)) && AsSeq(source) == Some(src)
    ensures Generate(id, s, o).result.Ok? <==> 0 <= k <= |src|
    ensures Generate(id, s, o).result.Ok? ==>
      && Generate(id, s, o).result.value.TupleV?
      && SampledFrom(src, Generate(id, s, o).result.value.items)
    ensures Generate(id, s, o).result.Err? ==> Generate(id, s, o) == Step(Err(SampleTooLarge), s)
  {
    SelectionWithoutReplacement(id, s, o, source, src, k, BoolV(false));
  }

  /** Parameters are not cached: `IntRandomiser(r, r)` over a nested
      `r = IntRandomiser(a, a)` calls `r` once for `low` and once for `high`, so
      `r`'s generator moves by two draws and the outer one by one, and the value
      is `a`. Nothing else in the store changes. */
  lemma {:induction false} NestedReadsAfresh(i: nat, j: nat, s: Store, o: Oracle, a: int)
    requires WellFormed(s) && j < i < |s|
    requires s[j].kind == IntRandomiser(IntV(a), IntV(a))
    requires s[i].kind == IntRandomiser(Rand(j), Rand(j))
    ensures Generate(i, s, o).result == Ok(IntV(a))
    ensures Generate(i, s, o).store ==
      s[j := Randomiser(s[j].kind, Rng(s[j].rng.seed, s[j].rng.pos + 2))]
       [i := Randomiser(s[i].kind, Rng(s[i].rng.seed, s[i].rng.pos + 1))]
  {
    var s1 := s[j := Randomiser(s[j].kind, Rng(s[j].rng.seed, s[j].rng.pos + 1))];
    ReadConstant(j, i, s, o, a);
    EvolvesWellFormed(s, s1);
    ReadConstant(j, i, s1, o, a);
    var s2 := s1[j := Randomiser(s1[j].kind, Rng(s1[j].rng.seed, s1[j].rng.pos + 1))];
    EvolvesWellFormed(s1, s2);
    assert Generate(i, s, o) == IntDraw(i, IntV(a), IntV(a), NoneV, s2, o);
    IntDrawScalar(i, IntV(a), IntV(a), s2, o);
  }

  /** Reading a parameter that is `IntRandomiser(a, a)` gives `a` and moves that
      randomiser's generator alone, by one draw. */
  lemma {:induction false} ReadConstant(j: nat, owner: nat, s: Store, o: Oracle, a: int)
    requires WellFormed(s) && j < owner <= |s|
    requires s[j].kind == IntRandomiser(IntV(a), IntV(a))
    ensures ReadAttr(Rand(j), s, o, owner) ==
      Step(Ok(IntV(a)), s[j := Randomiser(s[j].kind, Rng(s[j].rng.seed, s[j].rng.pos + 1))])
  {
    IntScalar(j, s, o, a, a, BoolV(true));
  }

  /** A nested bound is the value its randomiser returns on the read:
      `IntRandomiser(r, hi)` succeeds iff `r` returns an integer no greater than
      `hi`, and then returns an integer between the two. `r` draws first, then
      the caller draws once. */
  lemma {:induction false} NestedLowBound(i: nat, j: nat, s: Store, o: Oracle, hi: int)
    requires WellFormed(s) && j < i < |s|
    requires s[i].kind == IntRandomiser(Rand(j), IntV(hi))
    ensures
      var g := Generate(j, s, o);
      var r := Generate(i, s, o);
      && (r.result.Ok? <==> g.result.Ok? && AsInt(g.result.value).Some? && AsInt(g.result.value).value <= hi)
      && (r.result.Ok? ==>
            && r.result.value.IntV?
            && AsInt(g.result.value).value <= r.result.value.i <= hi
            && AdvancedBy(g.store, r.store, i, 1))
  {
    assert Generate(i, s, o) == CallInt(i, s, o);
    var lo := ReadAttr(Rand(j), s, o, i);
    assert lo == Generate(j, s, o);
    if lo.result.Ok? {
      EvolvesWellFormed(s, lo.store);
      assert ReadAttr(IntV(hi), lo.store, o, i) == Step(Ok(IntV(hi)), lo.store);
      assert ReadAttr(NoneV, lo.store, o, i) == Step(Ok(NoneV), lo.store);
      assert CallInt(i, s, o) == IntDraw(i, lo.result.value, IntV(hi), NoneV, lo.store, o);
      IntDrawScalar(i, lo.result.value, IntV(hi), lo.store, o);
    }
  }

  /** A nested source is the sequence its randomiser returns on the read:
      `SelectionRandomiser(r)` succeeds iff `r` returns a non-empty list, tuple
      or string, and then returns a member of it. `r` draws first, then the
      caller draws once. */
  lemma {:induction false} NestedSource(i: nat, j: nat, s: Store, o: Oracle)
    requires WellFormed(s) && j < i < |s|
    requires s[i].kind == SelectionRandomiser(Rand(j))
    ensures
      var g := Generate(j, s, o);
      var r := Generate(i, s, o);
      && (r.result.Ok? <==> g.result.Ok? && AsSeq(g.result.value).Some? && |AsSeq(g.result.value).value| > 0)
      && (r.result.Ok? ==>
            && r.result.value in AsSeq(g.result.value).value
            && AdvancedBy(g.store, r.store, i, 1))
  {
    assert Generate(i, s, o) == CallSelection(i, s, o);
    var src := ReadAttr(Rand(j), s, o, i);
    assert src == Generate(j, s, o);
    if src.result.Ok? {
      EvolvesWellFormed(s, src.store);
      assert ReadAttr(NoneV, src.store, o, i) == Step(Ok(NoneV), src.store);
      assert CallSelection(i, s, o) == SelectionDraw(i, src.result.value, NoneV, src.store, o);
      SelectionDrawScalar(i, src.result.value, src.store, o);
    }
  }

  /** Taking from distinct positions of a source without repeated members gives
      no repeated members. */
  lemma DistinctPositionsDistinctMembers(src: seq<Value>, ps: seq<nat>, out: seq<Value>)
    requires forall i, j :: 0 <= i < j < |src| ==> src[i] != src[j]
    requires Distinct(ps) && TakenAt(src, ps, out)
    ensures forall i, j :: 0 <= i < j < |out| ==> out[i] != out[j]
  {
    forall i, j | 0 <= i < j < |out| ensures out[i] != out[j] {
      if ps[i] < ps[j] {
        assert src[ps[i]] != src[ps[j]];
      } else {
        assert src[ps[j]] != src[ps[i]];
      }
    }
  }

  /** Reproducibility: two randomisers with the same plain parameters whose
      generators stand at the same seed and position produce the same value and
      leave their generators at the same position, whatever else the stores hold. */
  lemma {:induction false} SeededReproducible(i: nat, s: Store, j: nat, t: Store, o: Oracle)
    requires WellFormed(s) && i < |s| && WellFormed(t) && j < |t|
    requires s[i] == t[j] && KindRefsBelow(s[i].kind, 0)
    ensures Generate(i, s, o).result == Generate(j, t, o).result
    ensures Generate(i, s, o).store[i] == Generate(j, t, o).store[j]
  {
    RefsBelowMonotoneKind(s[i].kind, 0, i);
    RefsBelowMonotoneKind(s[i].kind, 0, j);
    var k := s[i].kind;
    match k
    case Base =>
    case IntKind(_, _, _, _) =>
      assert Generate(i, s, o) == CallInt(i, s, o);
      assert Generate(j, t, o) == CallInt(j, t, o);
      NoRefIsNotRand(k.low);
      NoRefIsNotRand(k.high);
      NoRefIsNotRand(k.size);
      NoRefIsNotRand(k.ordered);
      assert CallInt(i, s, o) == IntDraw(i, k.low, k.high, k.size, s, o);
      assert CallInt(j, t, o) == IntDraw(j, k.low, k.high, k.size, t, o);
      if !k.size.NoneV? {
        assert IntDraw(i, k.low, k.high, k.size, s, o) == IntTuple(i, k.low, k.high, k.size, s, o);
        assert IntDraw(j, k.low, k.high, k.size, t, o) == IntTuple(j, k.low, k.high, k.size, t, o);
      }
    case SelectionKind(_, _, _) =>
      assert Generate(i, s, o) == CallSelection(i, s, o);
      assert Generate(j, t, o) == CallSelection(j, t, o);
      NoRefIsNotRand(k.source);
      NoRefIsNotRand(k.size);
      NoRefIsNotRand(k.replacement);
      assert CallSelection(i, s, o) == SelectionDraw(i, k.source, k.size, s, o);
      assert CallSelection(j, t, o) == SelectionDraw(j, k.source, k.size, t, o);
      if !k.size.NoneV? {
        assert SelectionDraw(i, k.source, k.size, s, o) == SelectionTuple(i, k.source, k.size, s, o);
        assert SelectionDraw(j, k.source, k.size, t, o) == SelectionTuple(j, k.source, k.size, t, o);
      }
  }

  lemma NoRefIsNotRand(v: Value)
    requires RefsBelow(v, 0)
    ensures !v.Rand?
  {
  }

  lemma RefsBelowMonotoneKind(k: Kind, b: nat, c: nat)
    requires KindRefsBelow(k, b) && b <= c
    ensures KindRefsBelow(k, c)
  {
    match k
    case Base =>
    case IntKind(low, high, size, ordered) =>
      RefsBelowMonotone(low, b, c);
      RefsBelowMonotone(high, b, c);
      RefsBelowMonotone(size, b, c);
      RefsBelowMonotone(ordered, b, c);
    case SelectionKind(source, size, replacement) =>
      RefsBelowMonotone(source, b, c);
      RefsBelowMonotone(size, b, c);
      RefsBelowMonotone(replacement, b, c);
  }
}
