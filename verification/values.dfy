/** Python values as the argument randomiser sees them: literals, the two
    container kinds it rebuilds (list and tuple), references to randomiser
    objects, and other objects that carry an attribute dictionary. */
module Values {

  datatype Option<+T> = None | Some(value: T)

  datatype Value =
    | NoneV
    | BoolV(b: bool)
    | IntV(i: int)
    | StrV(s: string)
    | ListV(items: seq<Value>)
    | TupleV(items: seq<Value>)
      /** A randomiser object, by identity: an index into the store of live randomisers. */
    | Rand(id: nat)
      /** An instance of a user class: its class name and its `__dict__`. */
    | Obj(cls: string, attrs: map<string, Value>)

  /** Python truthiness, as used by `if self.ordered:` and `if self.replacement:`. */
  predicate Truthy(v: Value)
    ensures Truthy(v) <==> v !in {NoneV, BoolV(false), IntV(0), StrV([]), ListV([]), TupleV([])}
  {
    match v
    case NoneV => false
    case BoolV(b) => b
    case IntV(i) => i != 0
    case StrV(s) => s != []
    case ListV(items) => items != []
    case TupleV(items) => items != []
    case Rand(_) => true
    case Obj(_, _) => true
  }

  /** The value as a Python `int`; `bool` is a subclass of `int`. */
  function AsInt(v: Value): (r: Option<int>)
    ensures r.Some? <==> v.IntV? || v.BoolV?
    ensures v.IntV? ==> r == Some(v.i)
  {
    match v
    case IntV(i) => Some(i)
    case BoolV(b) => Some(if b then 1 else 0)
    case _ => None
  }

  /** The value as a Python sequence (what `len` and indexing accept):
      lists and tuples give their items, a string gives its one-character strings. */
  function AsSeq(v: Value): (r: Option<seq<Value>>)
    ensures r.Some? <==> v.ListV? || v.TupleV? || v.StrV?
    ensures (v.ListV? || v.TupleV?) ==> r == Some(v.items)
    ensures v.StrV? ==> r.Some? && |r.value| == |v.s|
    ensures v.StrV? ==> forall i :: 0 <= i < |v.s| ==> r.value[i] == StrV([v.s[i]])
  {
    match v
    case ListV(items) => Some(items)
    case TupleV(items) => Some(items)
    case StrV(s) => Some(seq(|s|, i requires 0 <= i < |s| => StrV([s[i]])))
    case _ => None
  }

  /** Every randomiser the value mentions, at any depth, has an identity below `bound`. */
  predicate RefsBelow(v: Value, bound: nat) {
    match v
    case Rand(id) => id < bound
    case ListV(items) => forall j :: 0 <= j < |items| ==> RefsBelow(items[j], bound)
    case TupleV(items) => forall j :: 0 <= j < |items| ==> RefsBelow(items[j], bound)
    case Obj(_, attrs) => forall k :: k in attrs ==> RefsBelow(attrs[k], bound)
    case _ => true
  }

  predicate AllRefsBelow(vs: seq<Value>, bound: nat) {
    forall j :: 0 <= j < |vs| ==> RefsBelow(vs[j], bound)
  }

  lemma {:induction false} RefsBelowMonotone(v: Value, b: nat, c: nat)
    requires RefsBelow(v, b) && b <= c
    ensures RefsBelow(v, c)
  {
    match v
    case ListV(items) =>
      forall j | 0 <= j < |items| ensures RefsBelow(items[j], c) { RefsBelowMonotone(items[j], b, c); }
    case TupleV(items) =>
      forall j | 0 <= j < |items| ensures RefsBelow(items[j], c) { RefsBelowMonotone(items[j], b, c); }
    case Obj(_, attrs) =>
      forall k | k in attrs ensures RefsBelow(attrs[k], c) { RefsBelowMonotone(attrs[k], b, c); }
    case _ =>
  }

  /** The items of a sequence mention only randomisers the sequence mentions. */
  lemma AsSeqRefs(v: Value, b: nat)
    requires RefsBelow(v, b) && AsSeq(v).Some?
    ensures AllRefsBelow(AsSeq(v).value, b)
  {
  }
}
