/** `generate_arguments`: the walk over an argument that replaces every
    randomiser by the value it generates and rebuilds lists and tuples. */
module Resolution {
  import opened Values
  import opened Randomisers
  import opened Draws

  /** `generate_arguments(value)`: a randomiser is called; a list or tuple is
      rebuilt as the same kind from its resolved items, left to right; a string
      and every other value are returned as they are. */
  function Resolve(v: Value, s: Store, o: Oracle): (r: Step<Value>)
    requires WellFormed(s) && RefsBelow(v, |s|)
    ensures Evolves(s, r.store)
    ensures r.result.Ok? ==> RefsBelow(r.result.value, |s|)
    decreases v
  {
    match v
    case Rand(id) => Generate(id, s, o)
    case ListV(items) =>
      var r := ResolveItems(items, s, o);
      if r.result.Err? then Step(Err(r.result.error), r.store)
      else Step(Ok(ListV(r.result.value)), r.store)
    case TupleV(items) =>
      var r := ResolveItems(items, s, o);
      if r.result.Err? then Step(Err(r.result.error), r.store)
      else Step(Ok(TupleV(r.result.value)), r.store)
    case _ => Step(Ok(v), s)
  }

  /** `[generate_arguments(i) for i in value]`; the first failure stops the walk. */
  function ResolveItems(items: seq<Value>, s: Store, o: Oracle): (r: Step<seq<Value>>)
    requires WellFormed(s) && AllRefsBelow(items, |s|)
    ensures Evolves(s, r.store)
    ensures r.result.Ok? ==> |r.result.value| == |items| && AllRefsBelow(r.result.value, |s|)
    decreases items
  {
    if items == [] then Step(Ok([]), s)
    else
      var h := Resolve(items[0], s, o);
      if h.result.Err? then Step(Err(h.result.error), h.store)
      else
        var t := ResolveItems(items[1..], h.store, o);
        if t.result.Err? then t
        else Step(Ok([h.result.value] + t.result.value), t.store)
  }

  /** The randomisers the walk meets, in the order it meets them. */
  function Leaves(v: Value): seq<nat>
    decreases v
  {
    match v
    case Rand(id) => [id]
    case ListV(items) => LeavesItems(items)
    case TupleV(items) => LeavesItems(items)
    case _ => []
  }

  function LeavesItems(items: seq<Value>): seq<nat>
    decreases items
  {
    if items == [] then [] else Leaves(items[0]) + LeavesItems(items[1..])
  }

  predicate IdsBelow(ids: seq<nat>, b: nat) {
    forall i :: 0 <= i < |ids| ==> ids[i] < b
  }

  lemma {:induction false} LeavesBelow(v: Value, b: nat)
    requires RefsBelow(v, b)
    ensures IdsBelow(Leaves(v), b)
    decreases v
  {
    match v
    case ListV(items) => LeavesItemsBelow(items, b);
    case TupleV(items) => LeavesItemsBelow(items, b);
    case _ =>
  }

  lemma {:induction false} LeavesItemsBelow(items: seq<Value>, b: nat)
    requires AllRefsBelow(items, b)
    ensures IdsBelow(LeavesItems(items), b)
    decreases items
  {
    if items != [] {
      LeavesBelow(items[0], b);
      LeavesItemsBelow(items[1..], b);
    }
  }

  /** The value with its `k`-th randomiser replaced by `outs[k]`. */
  function Fill(v: Value, outs: seq<Value>): Value
    requires |outs| == |Leaves(v)|
    decreases v
  {
    match v
    case Rand(_) => outs[0]
    case ListV(items) => ListV(FillItems(items, outs))
    case TupleV(items) => TupleV(FillItems(items, outs))
    case _ => v
  }

  function FillItems(items: seq<Value>, outs: seq<Value>): (r: seq<Value>)
    requires |outs| == |LeavesItems(items)|
    ensures |r| == |items|
    decreases items
  {
    if items == [] then []
    else
      var n := |Leaves(items[0])|;
      [Fill(items[0], outs[..n])] + FillItems(items[1..], outs[n..])
  }

  /** Calls the randomisers `ids` one after the other; the first failure stops. */
  function CallAll(ids: seq<nat>, s: Store, o: Oracle): (r: Step<seq<Value>>)
    requires WellFormed(s) && IdsBelow(ids, |s|)
    ensures Evolves(s, r.store)
    ensures r.result.Ok? ==> |r.result.value| == |ids|
    decreases ids
  {
    if ids == [] then Step(Ok([]), s)
    else
      var h := Generate(ids[0], s, o);
      if h.result.Err? then Step(Err(h.result.error), h.store)
      else
        var t := CallAll(ids[1..], h.store, o);
        if t.result.Err? then t
        else Step(Ok([h.result.value] + t.result.value), t.store)
  }

  lemma {:induction false} CallAllAppend(a: seq<nat>, b: seq<nat>, s: Store, o: Oracle)
    requires WellFormed(s) && IdsBelow(a, |s|) && IdsBelow(b, |s|)
    ensures IdsBelow(a + b, |s|)
    ensures
      var c := CallAll(a, s, o);
      CallAll(a + b, s, o) ==
        if c.result.Err? then c
        else
          var d := CallAll(b, c.store, o);
          if d.result.Err? then d
          else Step(Ok(c.result.value + d.result.value), d.store)
    decreases a
  {
    if a != [] {
      assert (a + b)[0] == a[0] && (a + b)[1..] == a[1..] + b;
      var h := Generate(a[0], s, o);
      if h.result.Ok? {
        CallAllAppend(a[1..], b, h.store, o);
        var c := CallAll(a[1..], h.store, o);
        if c.result.Ok? {
          var d := CallAll(b, c.store, o);
          if d.result.Ok? {
            assert [h.result.value] + (c.result.value + d.result.value)
                == ([h.result.value] + c.result.value) + d.result.value;
          }
        }
      }
    } else {
      assert a + b == b;
      var d := CallAll(b, s, o);
      if d.result.Ok? {
        assert [] + d.result.value == d.result.value;
      }
    }
  }

  /** The result of the walk, told the other way: call every randomiser the
      walk meets, once each and in order, then put each generated value where
      its randomiser stood. A failure leaves the store where that call left it. */
  lemma {:induction false} ResolveByLeaves(v: Value, s: Store, o: Oracle)
    requires WellFormed(s) && RefsBelow(v, |s|)
    ensures IdsBelow(Leaves(v), |s|)
    ensures
      var c := CallAll(Leaves(v), s, o);
      Resolve(v, s, o) ==
        if c.result.Err? then Step(Err(c.result.error), c.store)
        else Step(Ok(Fill(v, c.result.value)), c.store)
    decreases v
  {
    LeavesBelow(v, |s|);
    match v
    case Rand(id) =>
      var h := Generate(id, s, o);
      if h.result.Ok? {
        assert CallAll([id][1..], h.store, o) == Step(Ok([]), h.store);
      }
    case ListV(items) => ResolveItemsByLeaves(items, s, o);
    case TupleV(items) => ResolveItemsByLeaves(items, s, o);
    case _ =>
  }

  lemma {:induction false} ResolveItemsByLeaves(items: seq<Value>, s: Store, o: Oracle)
    requires WellFormed(s) && AllRefsBelow(items, |s|)
    ensures IdsBelow(LeavesItems(items), |s|)
    ensures
      var c := CallAll(LeavesItems(items), s, o);
      ResolveItems(items, s, o) ==
        if c.result.Err? then Step(Err(c.result.error), c.store)
        else Step(Ok(FillItems(items, c.result.value)), c.store)
    decreases items
  {
    LeavesItemsBelow(items, |s|);
    if items != [] {
      var a, b := Leaves(items[0]), LeavesItems(items[1..]);
      LeavesBelow(items[0], |s|);
      LeavesItemsBelow(items[1..], |s|);
      CallAllAppend(a, b, s, o);
      ResolveByLeaves(items[0], s, o);
      var c := CallAll(a, s, o);
      if c.result.Ok? {
        ResolveItemsByLeaves(items[1..], c.store, o);
        var d := CallAll(b, c.store, o);
        if d.result.Ok? {
          var outs := c.result.value + d.result.value;
          assert outs[..|a|] == c.result.value && outs[|a|..] == d.result.value;
        }
      }
    }
  }

  /** The resolved value has the argument's shape: a list stays a list and a
      tuple a tuple, of the same length, item by item; everything that is not
      a randomiser, a list or a tuple (strings included) is returned unchanged. */
  predicate SameShape(v: Value, r: Value)
    decreases v
  {
    match v
    case Rand(_) => true
    case ListV(items) =>
      r.ListV? && |r.items| == |items| && forall j :: 0 <= j < |items| ==> SameShape(items[j], r.items[j])
    case TupleV(items) =>
      r.TupleV? && |r.items| == |items| && forall j :: 0 <= j < |items| ==> SameShape(items[j], r.items[j])
    case _ => r == v
  }

  lemma {:induction false} ResolveShape(v: Value, s: Store, o: Oracle)
    requires WellFormed(s) && RefsBelow(v, |s|)
    ensures Resolve(v, s, o).result.Ok? ==> SameShape(v, Resolve(v, s, o).result.value)
    decreases v
  {
    match v
    case ListV(items) => ResolveItemsShape(items, s, o);
    case TupleV(items) => ResolveItemsShape(items, s, o);
    case _ =>
  }

  lemma {:induction false} ResolveItemsShape(items: seq<Value>, s: Store, o: Oracle)
    requires WellFormed(s) && AllRefsBelow(items, |s|)
    ensures ResolveItems(items, s, o).result.Ok? ==>
      forall j :: 0 <= j < |items| ==> SameShape(items[j], ResolveItems(items, s, o).result.value[j])
    decreases items
  {
    if items != [] {
      var h := Resolve(items[0], s, o);
      ResolveShape(items[0], s, o);
      if h.result.Ok? {
        ResolveItemsShape(items[1..], h.store, o);
      }
    }
  }
}
