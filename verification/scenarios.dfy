/** Whole-call properties of a decorated function: values without randomisers
    pass through, container shape, exclusion from the log, and the history
    kept across calls, including calls whose function raises. */
module Scenarios {
  import opened Values
  import opened Draws
  import opened Randomisers
  import opened RandomiserLaws
  import opened Resolution
  import opened Logging
  import opened Wrapping

  /** A value that mentions no randomiser is passed through unchanged, and no
      generator moves. */
  lemma {:induction false} NoRandomiserUnchanged(v: Value, s: Store, o: Oracle)
    requires WellFormed(s) && RefsBelow(v, 0)
    ensures RefsBelow(v, |s|)
    ensures Resolve(v, s, o) == Step(Ok(v), s)
    decreases v
  {
    RefsBelowMonotone(v, 0, |s|);
    match v
    case ListV(items) => NoRandomiserItemsUnchanged(items, s, o);
    case TupleV(items) => NoRandomiserItemsUnchanged(items, s, o);
    case _ =>
  }

  lemma {:induction false} NoRandomiserItemsUnchanged(items: seq<Value>, s: Store, o: Oracle)
    requires WellFormed(s) && AllRefsBelow(items, 0)
    ensures AllRefsBelow(items, |s|)
    ensures ResolveItems(items, s, o) == Step(Ok(items), s)
    decreases items
  {
    forall j | 0 <= j < |items| ensures RefsBelow(items[j], |s|) {
      RefsBelowMonotone(items[j], 0, |s|);
    }
    if items != [] {
      NoRandomiserUnchanged(items[0], s, o);
      NoRandomiserItemsUnchanged(items[1..], s, o);
      assert [items[0]] + items[1..] == items;
    }
  }

  /** `[IntRandomiser(n, n), v]`, with `v` free of randomisers, resolves to
      `[n, v]`: still a list of two, the randomiser replaced by the one value
      its range allows and the other item passed through. */
  lemma {:induction false} ListShape(id: nat, s: Store, o: Oracle, n: int, ordered: Value, v: Value)
    requires WellFormed(s) && id < |s|
    requires s[id].kind == IntKind(IntV(n), IntV(n), NoneV, ordered)
    requires RefsBelow(v, 0)
    ensures RefsBelow(ListV([Rand(id), v]), |s|)
    ensures Resolve(ListV([Rand(id), v]), s, o).result == Ok(ListV([IntV(n), v]))
  {
    IntScalar(id, s, o, n, n, ordered);
    assert Resolve(Rand(id), s, o).result == Ok(IntV(n));
    PairResolves(Rand(id), v, s, o);
  }

  /** A pair whose first item resolves and whose second holds no randomiser. */
  lemma {:induction false} PairResolves(x: Value, v: Value, s: Store, o: Oracle)
    requires WellFormed(s) && RefsBelow(x, |s|) && RefsBelow(v, 0)
    requires Resolve(x, s, o).result.Ok?
    ensures AllRefsBelow([x, v], |s|)
    ensures ResolveItems([x, v], s, o).result == Ok([Resolve(x, s, o).result.value, v])
  {
    RefsBelowMonotone(v, 0, |s|);
    var h := Resolve(x, s, o);
    NoRandomiserItemsUnchanged([v], h.store, o);
    var items := [x, v];
    assert items[0] == x && items[1..] == [v];
    assert ResolveItems(items, s, o).result == Ok([h.result.value] + [v]);
    assert [h.result.value] + [v] == [h.result.value, v];
  }

  /** `randargs(log_ignore=['b'])(f)(a=1, b=2)` records `{'a': 1}`, and the
      entry stays recorded when `f` raises. */
  method IgnoredKeywordExample(o: Oracle) returns (out: CallOutcome, history: seq<LogEntry>)
    ensures history == [map["a" := Raw(IntV(1))]]
    ensures out == Completed(Raised("ValueError"))
  {
    var w := new Wrapper(Some(["b"]), (a: seq<Value>, kw: Kwargs) => Raised("ValueError"));
    var kwargs := [("a", IntV(1)), ("b", IntV(2))];
    out := CallWithoutRandomisers(w, kwargs, o);
    IgnoredKeywordLog();
    history := w.callHistory;
  }

  lemma IgnoredKeywordLog()
    ensures AllRefsBelow(ArgValues([("a", IntV(1)), ("b", IntV(2))]), 0)
    ensures LoggedCall([("a", IntV(1)), ("b", IntV(2))], ["b"]) == map["a" := Raw(IntV(1))]
  {
    var kwargs := [("a", IntV(1)), ("b", IntV(2))];
    var d := ToDict(kwargs);
    assert d == map["a" := IntV(1), "b" := IntV(2)] by {
      assert kwargs[..1] == [("a", IntV(1))];
      assert kwargs[..1][..0] == [];
    }
    assert Kept("a", ["b"]);
  }

  /** Three calls leave three entries in call order; the last call is the third. */
  method ThreeCalls(o: Oracle, ignore: seq<string>, fn: (seq<Value>, Kwargs) -> FnOutcome,
                    k1: Kwargs, k2: Kwargs, k3: Kwargs)
    returns (history: seq<LogEntry>, last: Option<LogEntry>)
    requires AllRefsBelow(ArgValues(k1), 0) && AllRefsBelow(ArgValues(k2), 0) && AllRefsBelow(ArgValues(k3), 0)
    ensures |history| == 3 && last == Some(history[2])
    ensures history[0] == LoggedCall(k1, ignore)
    ensures history[1] == LoggedCall(k2, ignore)
    ensures history[2] == LoggedCall(k3, ignore)
  {
    var w := new Wrapper(Some(ignore), fn);
    var out := CallWithoutRandomisers(w, k1, o);
    out := CallWithoutRandomisers(w, k2, o);
    out := CallWithoutRandomisers(w, k3, o);
    history, last := w.callHistory, w.lastCall;
  }

  /** A call whose keyword arguments hold no randomiser appends their log. */
  method CallWithoutRandomisers(w: Wrapper, kw: Kwargs, o: Oracle) returns (out: CallOutcome)
    requires w.Valid() && AllRefsBelow(ArgValues(kw), 0)
    modifies w
    ensures w.Valid()
    ensures w.callHistory == old(w.callHistory) + [LoggedCall(kw, w.logIgnore)]
    ensures out == Completed(w.fn([], kw))
  {
    LiteralCall(kw, o);
    var s;
    out, s := w.Call([], kw, [], o);
  }

  /** The entry logged for keyword arguments that hold no randomiser. */
  function LoggedCall(kw: Kwargs, ignore: seq<string>): LogEntry
    requires AllRefsBelow(ArgValues(kw), 0)
  {
    ToDictRefs(kw, 0);
    Logged(ToDict(kw), ignore, [], 0, Obj("", ToDict(kw)))
  }

  /** Keyword arguments without randomisers resolve to themselves. */
  lemma LiteralCall(kw: Kwargs, o: Oracle)
    requires AllRefsBelow(ArgValues(kw), 0)
    ensures ResolveCall([], kw, [], o) == Step(Ok(([], kw)), [])
  {
    NoRandomiserItemsUnchanged(ArgValues(kw), [], o);
    assert ResolveItems([], [], o) == Step(Ok([]), []);
    assert Zip(Names(kw), ArgValues(kw)) == kw;
  }
}
