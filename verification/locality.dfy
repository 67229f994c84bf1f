/** Reproducibility with nested randomisers: a call reads and advances only the
    caller and the randomisers constructed before it, so two stores that agree
    on those objects give the same value and agree on them afterwards, whatever
    the later objects hold. Each lemma follows the function it is about, step
    by step, with the same termination measure. */
module Locality {
  import opened Values
  import opened Draws
  import opened Ordering
  import opened Randomisers

  /** The objects with identity below `n` are the same in both stores. */
  predicate Agree(s: Store, t: Store, n: nat) {
    n <= |s| && n <= |t| && forall k :: 0 <= k < n ==> s[k] == t[k]
  }

  /** The same value or exception, and stores that agree below `n`. */
  predicate SameStep(a: Step<Value>, b: Step<Value>, n: nat) {
    a.result == b.result && Agree(a.store, b.store, n)
  }

  /** Two agreeing stores that each kept object `n` as it was agree one further. */
  lemma {:induction false} AgreeExtend(s: Store, t: Store, a: Store, b: Store, n: nat)
    requires Agree(s, t, n + 1) && Agree(a, b, n)
    requires UnchangedFrom(s, a, n) && UnchangedFrom(t, b, n)
    ensures Agree(a, b, n + 1)
  {
    assert a[n] == s[n] && b[n] == t[n];
  }

  lemma {:induction false} ReadAttrDependsOnPrefix(v: Value, s: Store, t: Store, o: Oracle, owner: nat)
    requires WellFormed(s) && WellFormed(t) && owner <= |s| && owner <= |t| && RefsBelow(v, owner)
    requires Agree(s, t, owner)
    ensures SameStep(ReadAttr(v, s, o, owner), ReadAttr(v, t, o, owner), owner)
    decreases owner, 0
  {
    if v.Rand? {
      GenerateDependsOnPrefix(v.id, s, t, o);
      var a := Generate(v.id, s, o).store;
      var b := Generate(v.id, t, o).store;
      forall k | v.id < k < owner ensures a[k] == b[k] {
        assert a[k] == s[k] && b[k] == t[k];
      }
    }
  }

  /** A call of `id` gives the same value, and leaves the objects up to `id`
      alike, in any two stores that agree on those objects. */
  lemma {:induction false} GenerateDependsOnPrefix(id: nat, s: Store, t: Store, o: Oracle)
    requires WellFormed(s) && WellFormed(t) && id < |s| && id < |t|
    requires Agree(s, t, id + 1)
    ensures SameStep(Generate(id, s, o), Generate(id, t, o), id + 1)
    decreases id, 7
  {
    assert s[id] == t[id];
    match s[id].kind
    case Base =>
    case IntKind(_, _, _, _) =>
      CallIntDependsOnPrefix(id, s, t, o);
    case SelectionKind(_, _, _) =>
      CallSelectionDependsOnPrefix(id, s, t, o);
  }

  /** One parameter read by the randomiser `id` on agreeing stores. */
  lemma {:induction false} ReadOwn(v: Value, s: Store, t: Store, o: Oracle, id: nat)
    requires WellFormed(s) && WellFormed(t) && id < |s| && id < |t| && RefsBelow(v, id)
    requires Agree(s, t, id + 1)
    ensures SameStep(ReadAttr(v, s, o, id), ReadAttr(v, t, o, id), id + 1)
    decreases id, 1
  {
    ReadAttrDependsOnPrefix(v, s, t, o, id);
    AgreeExtend(s, t, ReadAttr(v, s, o, id).store, ReadAttr(v, t, o, id).store, id);
  }

  lemma {:induction false} CallIntDependsOnPrefix(id: nat, s: Store, t: Store, o: Oracle)
    requires WellFormed(s) && WellFormed(t) && id < |s| && id < |t| && s[id].kind.IntKind?
    requires Agree(s, t, id + 1)
    ensures SameStep(CallInt(id, s, o), CallInt(id, t, o), id + 1)
    decreases id, 6
  {
    var k := s[id].kind;
    assert t[id].kind == k;
    var lo, lt := ReadAttr(k.low, s, o, id), ReadAttr(k.low, t, o, id);
    ReadOwn(k.low, s, t, o, id);
    if lo.result.Err? { return; }
    EvolvesWellFormed(s, lo.store);
    EvolvesWellFormed(t, lt.store);
    var hi, ht := ReadAttr(k.high, lo.store, o, id), ReadAttr(k.high, lt.store, o, id);
    ReadOwn(k.high, lo.store, lt.store, o, id);
    if hi.result.Err? { return; }
    EvolvesWellFormed(lo.store, hi.store);
    EvolvesWellFormed(lt.store, ht.store);
    var sz, st := ReadAttr(k.size, hi.store, o, id), ReadAttr(k.size, ht.store, o, id);
    ReadOwn(k.size, hi.store, ht.store, o, id);
    if sz.result.Err? { return; }
    EvolvesWellFormed(hi.store, sz.store);
    EvolvesWellFormed(ht.store, st.store);
    IntDrawDependsOnPrefix(id, lo.result.value, hi.result.value, sz.result.value, sz.store, st.store, o);
  }

  lemma {:induction false} IntDrawDependsOnPrefix(id: nat, low: Value, high: Value, size: Value, s: Store, t: Store, o: Oracle)
    requires WellFormed(s) && WellFormed(t) && id < |s| && id < |t| && s[id].kind.IntKind?
    requires Agree(s, t, id + 1)
    ensures SameStep(IntDraw(id, low, high, size, s, o), IntDraw(id, low, high, size, t, o), id + 1)
    decreases id, 5
  {
    assert s[id] == t[id];
    if !size.NoneV? {
      IntTupleDependsOnPrefix(id, low, high, size, s, t, o);
    }
  }

  lemma {:induction false} IntTupleDependsOnPrefix(id: nat, low: Value, high: Value, size: Value, s: Store, t: Store, o: Oracle)
    requires WellFormed(s) && WellFormed(t) && id < |s| && id < |t| && s[id].kind.IntKind?
    requires Agree(s, t, id + 1)
    ensures SameStep(IntTuple(id, low, high, size, s, o), IntTuple(id, low, high, size, t, o), id + 1)
    decreases id, 4
  {
    AdvanceThenReadAny(s, t, o, id);
  }

  /** `AdvanceThenRead` for every state the generator can reach. */
  lemma {:induction false} AdvanceThenReadAny(s: Store, t: Store, o: Oracle, id: nat)
    requires WellFormed(s) && WellFormed(t) && id < |s| && id < |t| && s[id].kind.IntKind?
    requires Agree(s, t, id + 1)
    ensures t[id] == s[id]
    ensures forall g: Rng :: g.seed == s[id].rng.seed && s[id].rng.pos <= g.pos ==>
      SameStep(ReadAttr(s[id].kind.ordered, Advance(s, id, g), o, id),
               ReadAttr(s[id].kind.ordered, Advance(t, id, g), o, id), id + 1)
    decreases id, 3
  {
    forall g: Rng | g.seed == s[id].rng.seed && s[id].rng.pos <= g.pos
      ensures SameStep(ReadAttr(s[id].kind.ordered, Advance(s, id, g), o, id),
                       ReadAttr(s[id].kind.ordered, Advance(t, id, g), o, id), id + 1)
    {
      AdvanceThenRead(s, t, o, id, g);
    }
  }

  /** Reading `ordered` after the same draws, on agreeing stores. */
  lemma {:induction false} AdvanceThenRead(s: Store, t: Store, o: Oracle, id: nat, g: Rng)
    requires WellFormed(s) && WellFormed(t) && id < |s| && id < |t| && s[id].kind.IntKind?
    requires Agree(s, t, id + 1) && g.seed == s[id].rng.seed && s[id].rng.pos <= g.pos
    ensures t[id] == s[id]
    ensures SameStep(ReadAttr(s[id].kind.ordered, Advance(s, id, g), o, id),
                     ReadAttr(s[id].kind.ordered, Advance(t, id, g), o, id), id + 1)
    decreases id, 2
  {
    AgreeAdvance(s, t, id, g);
    ReadOwn(s[id].kind.ordered, Advance(s, id, g), Advance(t, id, g), o, id);
  }

  /** Moving the same generator to the same state keeps two stores agreeing. */
  lemma {:induction false} AgreeAdvance(s: Store, t: Store, id: nat, g: Rng)
    requires Agree(s, t, id + 1) && id < |s| && id < |t|
    requires g.seed == s[id].rng.seed && s[id].rng.pos <= g.pos
    ensures t[id] == s[id]
    ensures Agree(Advance(s, id, g), Advance(t, id, g), id + 1)
  {
    var s4, t4 := Advance(s, id, g), Advance(t, id, g);
    forall k | 0 <= k < id + 1 ensures s4[k] == t4[k] {
      if k < id { assert s4[k] == s[k] && t4[k] == t[k]; }
    }
  }

  lemma {:induction false} CallSelectionDependsOnPrefix(id: nat, s: Store, t: Store, o: Oracle)
    requires WellFormed(s) && WellFormed(t) && id < |s| && id < |t| && s[id].kind.SelectionKind?
    requires Agree(s, t, id + 1)
    ensures SameStep(CallSelection(id, s, o), CallSelection(id, t, o), id + 1)
    decreases id, 6
  {
    var k := s[id].kind;
    assert t[id].kind == k;
    var src, srt := ReadAttr(k.source, s, o, id), ReadAttr(k.source, t, o, id);
    ReadOwn(k.source, s, t, o, id);
    if src.result.Err? { return; }
    EvolvesWellFormed(s, src.store);
    EvolvesWellFormed(t, srt.store);
    var sz, st := ReadAttr(k.size, src.store, o, id), ReadAttr(k.size, srt.store, o, id);
    ReadOwn(k.size, src.store, srt.store, o, id);
    if sz.result.Err? { return; }
    EvolvesWellFormed(src.store, sz.store);
    EvolvesWellFormed(srt.store, st.store);
    SelectionDrawDependsOnPrefix(id, src.result.value, sz.result.value, sz.store, st.store, o);
  }

  lemma {:induction false} SelectionDrawDependsOnPrefix(id: nat, source: Value, size: Value, s: Store, t: Store, o: Oracle)
    requires WellFormed(s) && WellFormed(t) && id < |s| && id < |t| && s[id].kind.SelectionKind?
    requires RefsBelow(source, |s|) && RefsBelow(source, |t|)
    requires Agree(s, t, id + 1)
    ensures SameStep(SelectionDraw(id, source, size, s, o), SelectionDraw(id, source, size, t, o), id + 1)
    decreases id, 5
  {
    assert s[id] == t[id];
    if !size.NoneV? {
      SelectionTupleDependsOnPrefix(id, source, size, s, t, o);
    }
  }

  lemma {:induction false} SelectionTupleDependsOnPrefix(id: nat, source: Value, size: Value, s: Store, t: Store, o: Oracle)
    requires WellFormed(s) && WellFormed(t) && id < |s| && id < |t| && s[id].kind.SelectionKind?
    requires RefsBelow(source, |s|) && RefsBelow(source, |t|)
    requires Agree(s, t, id + 1)
    ensures SameStep(SelectionTuple(id, source, size, s, o), SelectionTuple(id, source, size, t, o), id + 1)
    decreases id, 4
  {
    assert s[id] == t[id];
    var rep := s[id].kind.replacement;
    ReadOwn(rep, s, t, o, id);
    var rs, rt := ReadAttr(rep, s, o, id), ReadAttr(rep, t, o, id);
    if rs.result.Ok? {
      SelectionPickDependsOnPrefix(id, source, size, rs.result.value, rs.store, rt.store, o);
    }
  }

  lemma {:induction false} SelectionPickDependsOnPrefix(id: nat, source: Value, size: Value, replacement: Value,
                                                        s: Store, t: Store, o: Oracle)
    requires id < |s| && id < |t| && RefsBelow(source, |s|) && RefsBelow(source, |t|)
    requires Agree(s, t, id + 1)
    ensures SameStep(SelectionPick(id, source, size, replacement, s, o),
                     SelectionPick(id, source, size, replacement, t, o), id + 1)
  {
    assert s[id] == t[id];
    AgreeAdvanceAny(s, t, id);
  }

  /** `AgreeAdvance` for every state the generator can reach. */
  lemma {:induction false} AgreeAdvanceAny(s: Store, t: Store, id: nat)
    requires Agree(s, t, id + 1) && id < |s| && id < |t|
    ensures forall g: Rng :: g.seed == s[id].rng.seed && s[id].rng.pos <= g.pos ==>
      Agree(Advance(s, id, g), Advance(t, id, g), id + 1)
  {
    forall g: Rng | g.seed == s[id].rng.seed && s[id].rng.pos <= g.pos
      ensures Agree(Advance(s, id, g), Advance(t, id, g), id + 1)
    {
      AgreeAdvance(s, t, id, g);
    }
  }
}
