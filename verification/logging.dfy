/** `argument_log`: the filtered record of the resolved keyword arguments. */
module Logging {
  import opened Values
  import opened Randomisers

  /** A logged value: a value with no attribute dictionary is kept as it is;
      one with a dictionary becomes the nested log of that dictionary. */
  datatype LogValue = Raw(v: Value) | Nested(entries: map<string, LogValue>)

  type LogEntry = map<string, LogValue>

  /** `not k.startswith('_') and k not in ignore` */
  predicate Kept(k: string, ignore: seq<string>) {
    !(|k| > 0 && k[0] == '_') && k !in ignore
  }

  /** `hasattr(v, '__dict__')`: instances of classes, randomisers included. */
  predicate HasDict(v: Value) {
    v.Obj? || v.Rand?
  }

  /** `v.__class__.__name__` of a randomiser. */
  function ClassName(k: Kind): (r: string)
    ensures k.Base? <==> r == "ArgumentRandomiser"
    ensures k.IntKind? <==> r == "IntRandomiser"
    ensures k.SelectionKind? <==> r == "SelectionRandomiser"
  {
    match k
    case Base => "ArgumentRandomiser"
    case IntKind(_, _, _, _) => "IntRandomiser"
    case SelectionKind(_, _, _) => "SelectionRandomiser"
  }

  /** A randomiser's `__dict__`: the parameters its constructor stores, and the
      `gauss_next` slot that `random.Random.__init__` sets to `None`. */
  function AttrDict(k: Kind): (d: map<string, Value>)
    ensures "gauss_next" in d && d["gauss_next"] == NoneV
    ensures k.Base? ==> d.Keys == {"gauss_next"}
    ensures k.IntKind? ==>
      && d.Keys == {"low", "high", "size", "ordered", "gauss_next"}
      && d["low"] == k.low && d["high"] == k.high && d["size"] == k.size && d["ordered"] == k.ordered
    ensures k.SelectionKind? ==>
      && d.Keys == {"source", "size", "replacement", "gauss_next"}
      && d["source"] == k.source && d["size"] == k.size && d["replacement"] == k.replacement
  {
    match k
    case Base => map["gauss_next" := NoneV]
    case IntKind(low, high, size, ordered) =>
      map["low" := low, "high" := high, "size" := size, "ordered" := ordered, "gauss_next" := NoneV]
    case SelectionKind(source, size, replacement) =>
      map["source" := source, "size" := size, "replacement" := replacement, "gauss_next" := NoneV]
  }

  /** No attribute a randomiser stores is private, so a nested log keeps them all. */
  lemma AttrDictKept(k: Kind)
    ensures forall key :: key in AttrDict(k) ==> Kept(key, [])
  {
  }

  /** A nested log: the entries of a dictionary plus `_cls` naming its class. */
  function WithClass(e: LogEntry, cls: string): (r: LogValue)
    ensures r.Nested? && r.entries.Keys == e.Keys + {"_cls"}
    ensures r.entries["_cls"] == Raw(StrV(cls))
    ensures forall k :: k in e && k != "_cls" ==> r.entries[k] == e[k]
  {
    Nested(e["_cls" := Raw(StrV(cls))])
  }

  lemma AttrDictRefs(k: Kind, b: nat)
    requires KindRefsBelow(k, b)
    ensures RefsBelow(Obj("", AttrDict(k)), b)
  {
  }

  /** `argument_log(d, ignore)`: the kept keys of `d`, each with its logged value.
      `holder` is `d` seen as the dictionary of a value; it measures nesting for
      termination and plays no other part. */
  function Logged(d: map<string, Value>, ignore: seq<string>, s: Store, bound: nat, ghost holder: Value): (r: LogEntry)
    requires WellFormed(s) && bound <= |s|
    requires holder.Obj? && holder.attrs == d && RefsBelow(holder, bound)
    ensures r.Keys == set k | k in d && Kept(k, ignore)
    ensures forall k :: k in r && !HasDict(d[k]) ==> r[k] == Raw(d[k])
    decreases bound, holder, 0
  {
    map k | k in d && Kept(k, ignore) :: LogOf(d[k], s, bound)
  }

  /** One logged value: an object with a dictionary is logged as the nested
      `argument_log` of that dictionary with an empty ignore list, plus a
      `_cls` entry naming its class; anything else is kept unchanged. */
  function LogOf(v: Value, s: Store, bound: nat): (r: LogValue)
    requires WellFormed(s) && bound <= |s| && RefsBelow(v, bound)
    ensures !HasDict(v) <==> r.Raw?
    ensures !HasDict(v) ==> r == Raw(v)
    ensures v.Obj? ==>
      && r.entries.Keys == (set k | k in v.attrs && Kept(k, [])) + {"_cls"}
      && r.entries["_cls"] == Raw(StrV(v.cls))
    ensures v.Rand? ==>
      && r.entries.Keys == AttrDict(s[v.id].kind).Keys + {"_cls"}
      && r.entries["_cls"] == Raw(StrV(ClassName(s[v.id].kind)))
    decreases bound, v, 1
  {
    if v.Obj? then
      WithClass(Logged(v.attrs, [], s, bound, v), v.cls)
    else if v.Rand? then
      var k := s[v.id].kind;
      AttrDictRefs(k, v.id);
      AttrDictKept(k);
      WithClass(Logged(AttrDict(k), [], s, v.id, Obj("", AttrDict(k))), ClassName(k))
    else Raw(v)
  }

  /** An object is logged as the log of its attributes: each kept attribute's
      entry is that attribute logged in turn. */
  lemma {:induction false} ObjectLogged(v: Value, s: Store, bound: nat)
    requires WellFormed(s) && bound <= |s| && RefsBelow(v, bound) && v.Obj?
    ensures forall k :: k in v.attrs && Kept(k, []) ==>
      LogOf(v, s, bound).entries[k] == LogOf(v.attrs[k], s, bound)
  {
    assert LogOf(v, s, bound) == WithClass(Logged(v.attrs, [], s, bound, v), v.cls);
  }

  /** A randomiser is logged as the log of its `__dict__`: each parameter, and
      `gauss_next`, logged in turn, nested randomisers by their own dictionary. */
  lemma {:induction false} RandomiserLogged(id: nat, s: Store, bound: nat)
    requires WellFormed(s) && bound <= |s| && id < bound
    ensures var d := AttrDict(s[id].kind);
      && RefsBelow(Obj("", d), id)
      && LogOf(Rand(id), s, bound).entries.Keys == d.Keys + {"_cls"}
      && forall k :: k in d ==> LogOf(Rand(id), s, bound).entries[k] == LogOf(d[k], s, id)
  {
    var kind := s[id].kind;
    AttrDictRefs(kind, id);
    AttrDictKept(kind);
  }

  /** The log of the kept keys of `d` outside `todo`: what the loop of
      `ArgumentLog` has built once the keys in `todo` are left. */
  ghost function LoggedExcept(d: map<string, Value>, ignore: seq<string>, s: Store, bound: nat,
                              holder: Value, todo: set<string>): LogEntry
    requires WellFormed(s) && bound <= |s|
    requires holder.Obj? && holder.attrs == d && RefsBelow(holder, bound)
  {
    map k | k in d && k !in todo && Kept(k, ignore) :: LogOf(d[k], s, bound)
  }

  /** Taking one more key out of `todo` adds its entry when it is kept. */
  lemma {:induction false} LoggedExceptStep(d: map<string, Value>, ignore: seq<string>, s: Store, bound: nat,
                         holder: Value, todo: set<string>, k: string)
    requires WellFormed(s) && bound <= |s|
    requires holder.Obj? && holder.attrs == d && RefsBelow(holder, bound)
    requires k in todo && todo <= d.Keys
    ensures RefsBelow(d[k], bound)
    ensures LoggedExcept(d, ignore, s, bound, holder, todo - {k}) ==
      if Kept(k, ignore) then LoggedExcept(d, ignore, s, bound, holder, todo)[k := LogOf(d[k], s, bound)]
      else LoggedExcept(d, ignore, s, bound, holder, todo)
  {
  }

  /** `argument_log(d, ignore)` as the source runs it: a loop over the items of
      `d` that fills `ret`, calling itself on the dictionary of every value
      that has one. */
  method ArgumentLog(d: map<string, Value>, ignore: seq<string>, s: Store, bound: nat, ghost holder: Value)
    returns (ret: LogEntry)
    requires WellFormed(s) && bound <= |s|
    requires holder.Obj? && holder.attrs == d && RefsBelow(holder, bound)
    ensures ret == Logged(d, ignore, s, bound, holder)
    decreases bound, holder
  {
    ret := map[];
    var todo := d.Keys;
    while todo != {}
      invariant todo <= d.Keys
      invariant ret == LoggedExcept(d, ignore, s, bound, holder, todo)
      decreases todo
    {
      var k :| k in todo;
      LoggedExceptStep(d, ignore, s, bound, holder, todo, k);
      todo := todo - {k};
      var v := d[k];
      if Kept(k, ignore) {
        if v.Obj? {
          var nested := ArgumentLog(v.attrs, [], s, bound, v);
          ret := ret[k := WithClass(nested, v.cls)];
        } else if v.Rand? {
          var kind := s[v.id].kind;
          AttrDictRefs(kind, v.id);
          var nested := ArgumentLog(AttrDict(kind), [], s, v.id, Obj("", AttrDict(kind)));
          ret := ret[k := WithClass(nested, ClassName(kind))];
        } else {
          ret := ret[k := Raw(v)];
        }
      }
    }
    assert ret == Logged(d, ignore, s, bound, holder);
  }
}
