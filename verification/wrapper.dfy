/** `randargs(log_ignore)`: the decorator. The decorated function becomes a
    `Wrapper` object that owns its call history; each call resolves the
    arguments, logs the resolved keyword arguments, records the entry, and only
    then calls the wrapped function. */
module Wrapping {
  import opened Values
  import opened Draws
  import opened Randomisers
  import opened Resolution
  import opened Logging

  type Kwargs = seq<(string, Value)>

  /** What the wrapped function did: returned a value or raised an exception. */
  datatype FnOutcome = Returned(value: Value) | Raised(exception: string)

  /** What a call of the wrapper did: a randomiser failed while the arguments
      were resolved (the wrapped function was not called), or the wrapped
      function ran and this is its outcome, passed on unchanged. */
  datatype CallOutcome = ResolutionFailed(error: Error) | Completed(outcome: FnOutcome)

  function Names(kw: Kwargs): (r: seq<string>)
    ensures |r| == |kw| && forall i :: 0 <= i < |kw| ==> r[i] == kw[i].0
  {
    seq(|kw|, i requires 0 <= i < |kw| => kw[i].0)
  }

  function ArgValues(kw: Kwargs): (r: seq<Value>)
    ensures |r| == |kw| && forall i :: 0 <= i < |kw| ==> r[i] == kw[i].1
  {
    seq(|kw|, i requires 0 <= i < |kw| => kw[i].1)
  }

  function Zip(names: seq<string>, vs: seq<Value>): (r: Kwargs)
    requires |names| == |vs|
    ensures |r| == |vs| && forall i :: 0 <= i < |vs| ==> r[i] == (names[i], vs[i])
  {
    seq(|vs|, i requires 0 <= i < |vs| => (names[i], vs[i]))
  }

  /** The keyword arguments as a Python `dict`. */
  function ToDict(kw: Kwargs): (d: map<string, Value>)
    ensures d.Keys == set i | 0 <= i < |kw| :: kw[i].0
    ensures forall k :: k in d ==> exists i :: 0 <= i < |kw| && kw[i] == (k, d[k])
    decreases |kw|
  {
    if kw == [] then map[]
    else
      var d := ToDict(kw[..|kw| - 1]);
      assert forall k :: k in d ==> exists i :: 0 <= i < |kw| - 1 && kw[i] == (k, d[k]) by {
        forall k | k in d ensures exists i :: 0 <= i < |kw| - 1 && kw[i] == (k, d[k]) {
          var i :| 0 <= i < |kw[..|kw| - 1]| && kw[..|kw| - 1][i] == (k, d[k]);
        }
      }
      d[kw[|kw| - 1].0 := kw[|kw| - 1].1]
  }

  /** No keyword name is given twice, as in a Python call. */
  predicate DistinctNames(kw: Kwargs) {
    forall i, j :: 0 <= i < j < |kw| ==> kw[i].0 != kw[j].0
  }

  /** With no name given twice, each name maps to the value given with it. */
  lemma {:induction false} ToDictDistinct(kw: Kwargs)
    requires DistinctNames(kw)
    ensures forall i :: 0 <= i < |kw| ==> kw[i].0 in ToDict(kw) && ToDict(kw)[kw[i].0] == kw[i].1
  {
    forall i | 0 <= i < |kw| ensures kw[i].0 in ToDict(kw) && ToDict(kw)[kw[i].0] == kw[i].1 {
      ToDictAt(kw, i);
    }
  }

  lemma {:induction false} ToDictAt(kw: Kwargs, i: nat)
    requires DistinctNames(kw) && i < |kw|
    ensures kw[i].0 in ToDict(kw) && ToDict(kw)[kw[i].0] == kw[i].1
    decreases |kw|
  {
    var n := |kw| - 1;
    var p := kw[..n];
    assert ToDict(kw) == ToDict(p)[kw[n].0 := kw[n].1];
    if i < n {
      DistinctNamesPrefix(kw, n);
      ToDictAt(p, i);
      assert p[i] == kw[i] && kw[i].0 != kw[n].0;
    }
  }

  lemma {:induction false} DistinctNamesPrefix(kw: Kwargs, n: nat)
    requires DistinctNames(kw) && n <= |kw|
    ensures DistinctNames(kw[..n])
  {
    var p := kw[..n];
    forall a, b | 0 <= a < b < |p| ensures p[a].0 != p[b].0 {
      assert p[a] == kw[a] && p[b] == kw[b];
    }
  }

  lemma ToDictRefs(kw: Kwargs, b: nat)
    requires forall i :: 0 <= i < |kw| ==> RefsBelow(kw[i].1, b)
    ensures RefsBelow(Obj("", ToDict(kw)), b)
  {
    var d := ToDict(kw);
    forall k | k in d ensures RefsBelow(d[k], b) {
      var i :| 0 <= i < |kw| && kw[i] == (k, d[k]);
    }
  }

  /** Resolution of one call (`wrapper`, its first two statements): the
      positional arguments first, then the keyword arguments in order; the
      keyword names are kept. */
  function ResolveCall(args: seq<Value>, kwargs: Kwargs, s: Store, o: Oracle): (r: Step<(seq<Value>, Kwargs)>)
    requires WellFormed(s) && AllRefsBelow(args, |s|) && AllRefsBelow(ArgValues(kwargs), |s|)
    ensures Evolves(s, r.store)
    ensures r.result.Ok? ==>
      && |r.result.value.0| == |args|
      && Names(r.result.value.1) == Names(kwargs)
      && AllRefsBelow(ArgValues(r.result.value.1), |s|)
  {
    var a := ResolveItems(args, s, o);
    if a.result.Err? then Step(Err(a.result.error), a.store)
    else
      var kv := ResolveItems(ArgValues(kwargs), a.store, o);
      if kv.result.Err? then Step(Err(kv.result.error), kv.store)
      else Step(Ok((a.result.value, Zip(Names(kwargs), kv.result.value))), kv.store)
  }

  /** `ResolveCall`, told the other way: the randomisers met in the positional
      arguments and then in the keyword arguments are called once each, in that
      order, and each generated value is put where its randomiser stood; a
      failure leaves the store where that call left it. */
  lemma {:induction false} ResolveCallByLeaves(args: seq<Value>, kwargs: Kwargs, s: Store, o: Oracle)
    requires WellFormed(s) && AllRefsBelow(args, |s|) && AllRefsBelow(ArgValues(kwargs), |s|)
    ensures IdsBelow(LeavesItems(args) + LeavesItems(ArgValues(kwargs)), |s|)
    ensures
      var a, b := LeavesItems(args), LeavesItems(ArgValues(kwargs));
      var c := CallAll(a + b, s, o);
      ResolveCall(args, kwargs, s, o) ==
        if c.result.Err? then Step(Err(c.result.error), c.store)
        else
          var positional := FillItems(args, c.result.value[..|a|]);
          var keyword := FillItems(ArgValues(kwargs), c.result.value[|a|..]);
          Step(Ok((positional, Zip(Names(kwargs), keyword))), c.store)
  {
    var a, b := LeavesItems(args), LeavesItems(ArgValues(kwargs));
    LeavesItemsBelow(args, |s|);
    LeavesItemsBelow(ArgValues(kwargs), |s|);
    CallAllAppend(a, b, s, o);
    ResolveItemsByLeaves(args, s, o);
    var ca := CallAll(a, s, o);
    if ca.result.Ok? {
      EvolvesWellFormed(s, ca.store);
      ResolveItemsByLeaves(ArgValues(kwargs), ca.store, o);
      var cb := CallAll(b, ca.store, o);
      if cb.result.Ok? {
        var outs := ca.result.value + cb.result.value;
        assert outs[..|a|] == ca.result.value && outs[|a|..] == cb.result.value;
      }
    }
  }

  class Wrapper {
    /** `log_ignore`: keyword names left out of every log entry. */
    const logIgnore: seq<string>
    /** The decorated function. */
    const fn: (seq<Value>, Kwargs) -> FnOutcome
    /** `wrapper.call_history`, oldest first. */
    var callHistory: seq<LogEntry>
    /** `wrapper.last_call` */
    var lastCall: Option<LogEntry>

    /** The most recent call is the last entry of the history, and there is none
        before the first call. */
    ghost predicate Valid()
      reads this
    {
      lastCall == if callHistory == [] then None else Some(callHistory[|callHistory| - 1])
    }

    /** `randargs(log_ignore)(fn)`: no ignore list means an empty one; the new
        wrapper has an empty history and no last call. */
    constructor (logIgnore: Option<seq<string>>, fn: (seq<Value>, Kwargs) -> FnOutcome)
      ensures Valid()
      ensures callHistory == [] && lastCall == None
      ensures this.logIgnore == (if logIgnore.None? then [] else logIgnore.value)
      ensures this.fn == fn
    {
      this.logIgnore := if logIgnore.None? then [] else logIgnore.value;
      this.fn := fn;
      callHistory := [];
      lastCall := None;
    }

    /** `wrapper(*args, **kwargs)`: resolve, log, record, then call `fn` with the
        same resolved arguments. The entry is recorded whatever `fn` does; a
        failure during resolution records nothing and `fn` is not called. */
    method Call(args: seq<Value>, kwargs: Kwargs, s: Store, o: Oracle) returns (out: CallOutcome, s': Store)
      requires Valid()
      requires WellFormed(s) && AllRefsBelow(args, |s|) && AllRefsBelow(ArgValues(kwargs), |s|)
      modifies this
      ensures Valid()
      ensures s' == ResolveCall(args, kwargs, s, o).store
      ensures ResolveCall(args, kwargs, s, o).result.Err? ==>
        && out == ResolutionFailed(ResolveCall(args, kwargs, s, o).result.error)
        && callHistory == old(callHistory)
        && lastCall == old(lastCall)
      ensures ResolveCall(args, kwargs, s, o).result.Ok? ==>
        var (a, kw) := ResolveCall(args, kwargs, s, o).result.value;
        && ToDictRefsHold(kw, |s|)
        && var entry := Logged(ToDict(kw), logIgnore, s', |s'|, Obj("", ToDict(kw)));
        && callHistory == old(callHistory) + [entry]
        && lastCall == Some(entry)
        && out == Completed(fn(a, kw))
    {
      var r := ResolveCall(args, kwargs, s, o);
      s' := r.store;
      if r.result.Err? {
        out := ResolutionFailed(r.result.error);
        return;
      }
      var (a, kw) := r.result.value;
      ToDictRefs(kw, |s|);
      var entry := ArgumentLog(ToDict(kw), logIgnore, s', |s'|, Obj("", ToDict(kw)));
      callHistory := callHistory + [entry];
      lastCall := Some(entry);
      out := Completed(fn(a, kw));
    }
  }

  predicate ToDictRefsHold(kw: Kwargs, b: nat) {
    RefsBelow(Obj("", ToDict(kw)), b)
  }
}
