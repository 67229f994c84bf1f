/** What the draw step of each `__call__` promises for whatever values its
    reads returned. A parameter read may be a plain value or the value of a
    nested randomiser called on the read: these laws hold for both, stated in
    terms of the values read. The laws for plain parameters in `RandomiserLaws`
    follow from them. */
module DrawLaws {
  import opened Values
  import opened Draws
  import opened Ordering
  import opened Randomisers

  /** Only the generator of `id` moved, by `n` draws. */
  predicate AdvancedBy(s: Store, t: Store, id: nat, n: nat)
    requires id < |s|
  {
    t == s[id := Randomiser(s[id].kind, Rng(s[id].rng.seed, s[id].rng.pos + n))]
  }

  /** `randint(low, high)` on the bounds read: an integer between them after one
      draw; a bound that is not an integer is a `TypeError`, an empty range a
      `ValueError`, and a failure draws nothing. */
  lemma {:induction false} IntDrawScalar(id: nat, low: Value, high: Value, s: Store, o: Oracle)
    requires WellFormed(s) && id < |s| && s[id].kind.IntKind?
    ensures
      var r := IntDraw(id, low, high, NoneV, s, o);
      && (r.result.Ok? <==> AsInt(low).Some? && AsInt(high).Some? && AsInt(low).value <= AsInt(high).value)
      && (r.result.Ok? ==>
            && r.result.value.IntV?
            && AsInt(low).value <= r.result.value.i <= AsInt(high).value
            && AdvancedBy(s, r.store, id, 1))
      && (r.result.Err? ==>
            r == Step(Err(if AsInt(low).None? || AsInt(high).None? then TypeMismatch else EmptyRange), s))
  {
  }

  /** The sized draw on the values read, when `choices` over
      `range(low, high + 1)` fails: its exception is the call's, with nothing
      drawn and `ordered` not read. */
  lemma {:induction false} IntTupleChoicesFail(id: nat, low: Value, high: Value, size: Value, s: Store, o: Oracle)
    requires WellFormed(s) && id < |s| && s[id].kind.IntKind?
    ensures
      var d := ChoicesRange(o, s[id].rng, low, high, size);
      d.Err? ==> IntTuple(id, low, high, size, s, o) == Step(Err(d.error), s)
  {
  }

  /** The sized draw on the values read, when `choices` over
      `range(low, high + 1)` succeeds: it moves only this generator. Then
      `ordered` is read, which calls it when it is a randomiser; a failure of
      that read is the call's. Otherwise the result is a tuple of exactly the
      drawn integers, all between the bounds read: in draw order when the value
      read for `ordered` is falsy, ascending when it is truthy and the bounds
      are in order. */
  lemma {:induction false} IntTupleArranged(id: nat, low: Value, high: Value, size: Value, s: Store, o: Oracle)
    requires WellFormed(s) && id < |s| && s[id].kind.IntKind?
    ensures
      var d := ChoicesRange(o, s[id].rng, low, high, size);
      d.Ok? ==>
        var drawn := d.value.0;
        var s4 := Advance(s, id, d.value.1);
        var ord := ReadAttr(s[id].kind.ordered, s4, o, id);
        var r := IntTuple(id, low, high, size, s, o);
        && AdvancedBy(s, s4, id, |drawn|)
        && (ord.result.Err? ==> r == ord)
        && (ord.result.Ok? ==>
              && r.store == ord.store
              && exists xs ::
                && r.result == Ok(TupleV(IntsOf(xs)))
                && ArrangedDraws(xs, drawn, AsInt(low).value, AsInt(high).value, Truthy(ord.result.value)))
  {
    var d := ChoicesRange(o, s[id].rng, low, high, size);
    if d.Ok? {
      var drawn := d.value.0;
      var s4 := Advance(s, id, d.value.1);
      var ord := ReadAttr(s[id].kind.ordered, s4, o, id);
      if ord.result.Ok? {
        var lo, hi := AsInt(low).value, AsInt(high).value;
        var xs := Arrange(drawn, Truthy(ord.result.value), lo > hi);
        ArrangedInRange(drawn, lo, hi, Truthy(ord.result.value));
        assert IntTuple(id, low, high, size, s, o).result == Ok(TupleV(IntsOf(xs)));
      }
    }
  }

  /** `xs` holds exactly the integers `drawn` from `[lo, hi]`: in draw order
      when not `ordered`, ascending when `ordered` and the bounds are in order. */
  predicate ArrangedDraws(xs: seq<int>, drawn: seq<int>, lo: int, hi: int, ordered: bool) {
    && |xs| == |drawn|
    && multiset(xs) == multiset(drawn)
    && (forall i :: 0 <= i < |xs| ==> lo <= xs[i] <= hi)
    && (!ordered ==> xs == drawn)
    && (ordered && lo <= hi ==> Ascending(xs))
  }

  /** Arranging draws that lie in `[lo, hi]` keeps exactly them, in range. */
  lemma {:induction false} ArrangedInRange(drawn: seq<int>, lo: int, hi: int, ordered: bool)
    requires forall i :: 0 <= i < |drawn| ==> lo <= drawn[i] <= hi
    ensures ArrangedDraws(Arrange(drawn, ordered, lo > hi), drawn, lo, hi, ordered)
  {
    var xs := Arrange(drawn, ordered, lo > hi);
    forall i | 0 <= i < |xs| ensures lo <= xs[i] <= hi {
      ArrangeMembers(drawn, ordered, lo > hi, i);
    }
  }

  /** `choice(source)` on the source read: a member of it after one draw; a
      source that is not a sequence is a `TypeError`, an empty one an
      `IndexError`, and a failure draws nothing. */
  lemma {:induction false} SelectionDrawScalar(id: nat, source: Value, s: Store, o: Oracle)
    requires WellFormed(s) && id < |s| && s[id].kind.SelectionKind? && RefsBelow(source, |s|)
    ensures
      var r := SelectionDraw(id, source, NoneV, s, o);
      && (r.result.Ok? <==> AsSeq(source).Some? && |AsSeq(source).value| > 0)
      && (r.result.Ok? ==> r.result.value in AsSeq(source).value && AdvancedBy(s, r.store, id, 1))
      && (r.result.Err? ==>
            r == Step(Err(if AsSeq(source).None? then TypeMismatch else EmptyPopulation), s))
  {
  }

  /** `choices(source, k=size)` once the value read for `replacement` is truthy:
      `max(size, 0)` members of the source read, after as many draws; a size
      beyond a `Py_ssize_t` is an `OverflowError`, and a positive size over an
      empty source an `IndexError`. */
  lemma {:induction false} SelectionPickWithReplacement(id: nat, source: Value, size: Value, replacement: Value,
                                                        s: Store, o: Oracle)
    requires id < |s| && RefsBelow(source, |s|) && Truthy(replacement)
    ensures
      var r := SelectionPick(id, source, size, replacement, s, o);
      && (r.result.Ok? <==>
            && AsSeq(source).Some? && AsInt(size).Some? && FitsSsize(AsInt(size).value)
            && (AsInt(size).value <= 0 || |AsSeq(source).value| > 0))
      && (r.result.Ok? ==>
            && r.result.value.TupleV?
            && |r.result.value.items| == (if AsInt(size).value < 0 then 0 else AsInt(size).value)
            && (forall i :: 0 <= i < |r.result.value.items| ==> r.result.value.items[i] in AsSeq(source).value)
            && AdvancedBy(s, r.store, id, |r.result.value.items|))
      && (r.result.Err? ==>
            r == Step(Err(if AsSeq(source).None? || AsInt(size).None? then TypeMismatch
                          else if !FitsSsize(AsInt(size).value) then Overflow
                          else EmptyPopulation), s))
  {
  }

  /** `sample(source, k=size)` once the value read for `replacement` is falsy:
      `size` members from distinct positions of the source read, after `size`
      draws; a negative or oversized size is a `ValueError`. */
  lemma {:induction false} SelectionPickWithoutReplacement(id: nat, source: Value, size: Value, replacement: Value,
                                                           s: Store, o: Oracle)
    requires id < |s| && RefsBelow(source, |s|) && !Truthy(replacement)
    ensures
      var r := SelectionPick(id, source, size, replacement, s, o);
      && (r.result.Ok? <==>
            && AsSeq(source).Some? && AsInt(size).Some?
            && 0 <= AsInt(size).value <= |AsSeq(source).value|)
      && (r.result.Ok? ==>
            && r.result.value.TupleV?
            && |r.result.value.items| == AsInt(size).value
            && SampledFrom(AsSeq(source).value, r.result.value.items)
            && AdvancedBy(s, r.store, id, |r.result.value.items|))
      && (r.result.Err? ==>
            r == Step(Err(if AsSeq(source).None? || AsInt(size).None? then TypeMismatch else SampleTooLarge), s))
  {
  }
}
