# argument_randomiser, modelled in Dafny

`argument_randomiser` is a small Python library for driving a function with
random arguments. `randargs(log_ignore)` is a decorator. The wrapped function
accepts *randomiser* objects anywhere in its arguments, including inside lists
and tuples. On every call the wrapper:

1. replaces each randomiser by a value it generates;
2. logs the resolved keyword arguments, without the names in `log_ignore`
   and without names that start with `_`;
3. appends the log to `call_history` and sets `last_call` to it;
4. calls the function with the resolved arguments.

There are three randomisers in this model:

- `IntRandomiser(low, high, size, ordered)` gives one integer of
  `[low, high]`, or a tuple of `size` of them, sorted when `ordered`.
- `SelectionRandomiser(source, size, replacement)` gives one member of
  `source`, or a tuple of `size` members, with or without replacement.
- `ArgumentRandomiser` is the base class and cannot generate.

Each randomiser is its own seeded `random.Random`. Any parameter of a
randomiser may itself be a randomiser. It is called afresh each time the
parameter is read ("resolve-on-read").

The modules:

- `Values` holds the argument values this model covers: `None`, `bool`,
  `int`, `str`, list, tuple, a randomiser (by identity), and an instance of a
  plain class: one with an attribute dictionary whose class defines no
  `__bool__`, `__len__`, `__index__` or `__iter__`. Floats, dicts, sets and
  bytes are outside this domain. It also holds Python's truthiness and the `int`/sequence views that
  `random`'s primitives accept.
- `Draws` is the generator as an abstract draw stream. A generator is a seed
  and a position. An oracle says what the draw at each position is. The module
  gives the positions that `randint`, `choice`, `choices` and `sample` pick.
- `Ordering` is `sorted`, the `[::-1]` reversal, and how `IntRandomiser`
  arranges its draws.
- `Randomisers` holds:
  - the randomiser objects, kept in a `Store` indexed by identity;
  - their construction with an optional seed;
  - `__getattribute__` (resolve-on-read);
  - each `__call__`, with the exception it raises as an `Error`.
- `DrawLaws` states what the draw step of each `__call__` promises for
  whatever values its reads returned, plain or from a nested randomiser.
- `RandomiserLaws` derives what a call promises when its parameters are plain
  values. It also covers nesting: a nested parameter is called on every read
  and the draw works on the value it returned. And seeded randomisers
  reproduce their values.
- `Locality` proves that a call depends only on the caller and the randomisers
  constructed before it, nested ones included.
- `Resolution` is `generate_arguments`, with the proof that it calls every
  randomiser it meets once, in order, and keeps the argument's shape.
- `Logging` is `argument_log`: a specification function, and the loop of the
  source as a method proved equal to it.
- `Wrapping` is the decorator: a `Wrapper` class that owns `call_history` and
  `last_call`.
- `Scenarios` holds whole-call properties and worked examples.

A generation threads the store: it returns the value, or the exception, and
the store with every generator it advanced. A failing call keeps the draws it
made before it failed, as a Python exception would.

## Model

| member | source | states |
|---|---|---|
| Values.AsInt | argument_randomiser/rand.py:95 | `randint` and `range` accept exactly `int` values, `bool` included |
| Values.AsSeq | argument_randomiser/rand.py:139 | `choice`/`choices`/`sample` accept exactly lists, tuples and strings; a list or tuple is its items, and item `i` of a string is its `i`-th character as a one-character string |
| Values.Truthy | argument_randomiser/rand.py:98 | Python truthiness as `if self.ordered` and `if self.replacement` use it: false exactly for `None`, `False`, `0`, `''`, `[]` and `()`; every other value, objects and randomisers included, is true |
| Draws.Below | argument_randomiser/rand.py:95 | one draw lies below `n` and advances the generator by exactly one position |
| Draws.ChoicePositions | argument_randomiser/rand.py:97 | `choices` picks `k` positions, each inside the population, and advances the generator by `k` |
| Draws.Pick | argument_randomiser/rand.py:144 | drawing without replacement yields `k` distinct positions, all from the pool, after `k` draws |
| Draws.SamplePositions | argument_randomiser/rand.py:144 | `sample` picks `k` distinct positions below `n` after `k` draws |
| Ordering.Insert | argument_randomiser/rand.py:99 | inserting into an ascending sequence keeps it ascending and adds exactly that one element |
| Ordering.Sorted | argument_randomiser/rand.py:99 | `sorted` yields an ascending permutation of its input |
| Ordering.Reversed | argument_randomiser/rand.py:99 | `[::-1]` has the same length and puts element `i` at `len - 1 - i` |
| Ordering.ReversedMultiset | argument_randomiser/rand.py:99 | reversing is a permutation |
| Ordering.Arrange | argument_randomiser/rand.py:98-100 | the result keeps exactly the drawn values, as many as were drawn; with `ordered` it is ascending, or descending when `low > high`; without `ordered` it is the draw order |
| Ordering.ArrangeMembers | argument_randomiser/rand.py:98-100 | every arranged value is one of the drawn values |
| Randomisers.Construct | argument_randomiser/rand.py:57-59 | a new randomiser is a new object with its parameters and a fresh generator; a given seed is the generator's seed; stores stay well formed |
| Randomisers.ReadAttr | argument_randomiser/rand.py:74-78 | reading a parameter that is not a randomiser returns it and draws nothing; reading one that is a randomiser is exactly a call of that randomiser, made anew on every read; objects, parameters and seeds stay, generators only move forward, and the reading object and every later one are untouched |
| Randomisers.Generate | argument_randomiser/rand.py:67-68 | the base class fails with `NotImplementedError` and changes nothing; any call keeps every object's parameters and seed, only moves generators forward, and leaves every object constructed after the caller untouched |
| Randomisers.RandInt | argument_randomiser/rand.py:94-95 | succeeds iff both bounds are integers with `low <= high`; the result lies in `[low, high]` after one draw; a non-integer is a `TypeError`, an empty range a `ValueError` |
| Randomisers.ChoicesRange | argument_randomiser/rand.py:97 | succeeds iff all three are integers, `range(low, high + 1)` has at most `sys.maxsize` members, `size` fits a `Py_ssize_t`, and `size <= 0` or `low <= high`; `max(size, 0)` values in `[low, high]` after as many draws; otherwise `TypeError` for a non-integer, `OverflowError` for a range too long (checked before the size's type) or a size too large in magnitude, whatever its sign, else `IndexError` |
| Randomisers.Choice | argument_randomiser/rand.py:138-139 | succeeds iff the source is a non-empty sequence; the result is a member of it after one draw |
| Randomisers.Choices | argument_randomiser/rand.py:141-142 | succeeds iff the source is a sequence, the size an integer that fits a `Py_ssize_t`, and `size <= 0` or the source non-empty; `max(size, 0)` members of the source after as many draws; otherwise `TypeError`, `OverflowError` for a size too large in magnitude, else `IndexError` |
| Randomisers.Sample | argument_randomiser/rand.py:143-144 | succeeds iff `0 <= size <= len(source)`; `size` members taken from distinct positions, otherwise `ValueError` |
| Randomisers.CallInt | argument_randomiser/rand.py:89-100 | `IntRandomiser.__call__` keeps objects, parameters and seeds, only moves generators forward, leaves every later object untouched, and produces no new randomiser |
| Randomisers.IntDraw | argument_randomiser/rand.py:94-100 | the part of `IntRandomiser.__call__` after its reads, with the same frame guarantees as `CallInt` |
| Randomisers.IntTuple | argument_randomiser/rand.py:97-100 | the sized half of `IntRandomiser.__call__`, with the same frame guarantees as `CallInt` |
| Randomisers.CallSelection | argument_randomiser/rand.py:134-144 | `SelectionRandomiser.__call__`, with the same frame guarantees as `CallInt` |
| Randomisers.SelectionDraw | argument_randomiser/rand.py:138-144 | the part of `SelectionRandomiser.__call__` after its reads, with the same frame guarantees |
| Randomisers.SelectionTuple | argument_randomiser/rand.py:141-144 | the sized half of `SelectionRandomiser.__call__`, with the same frame guarantees |
| Randomisers.SelectionPick | argument_randomiser/rand.py:141-144 | once `replacement` is read, the sized draw (`choices` when it is truthy, `sample` otherwise) keeps every object's parameters and seed, only moves generators forward, leaves every later object untouched, and produces no new randomiser |
| DrawLaws.IntDrawScalar | argument_randomiser/rand.py:94-95 | without a size, on any bounds read, nested or plain: success iff both are integers with `low <= high`; an integer between them after one draw of this generator alone; otherwise `TypeError` or `ValueError` with nothing drawn |
| DrawLaws.IntTupleChoicesFail | argument_randomiser/rand.py:97 | with a size, on any values read: a failing `choices` is the call's exception, with nothing drawn and `ordered` not read |
| DrawLaws.IntTupleArranged | argument_randomiser/rand.py:97-100 | with a size, on any values read, once `choices` succeeded: this generator alone moves by the draws, `ordered` is then read (called if it is a randomiser) and a failure of that read is the call's; else a tuple of exactly the drawn integers, between the bounds read, in draw order when the value read for `ordered` is falsy and ascending when truthy and the bounds are in order |
| DrawLaws.ArrangedInRange | argument_randomiser/rand.py:98-100 | arranging draws from `[low, high]` keeps exactly them, all in range, in draw order or ascending as `ordered` says |
| DrawLaws.SelectionDrawScalar | argument_randomiser/rand.py:138-139 | without a size, on any source read, nested or plain: success iff it is a non-empty list, tuple or string; a member of it after one draw of this generator alone; otherwise `TypeError` or `IndexError` with nothing drawn |
| DrawLaws.SelectionPickWithReplacement | argument_randomiser/rand.py:141-142 | once the value read for `replacement` is truthy, on any source and size read: success iff both have the right type, the size fits a `Py_ssize_t`, and `size <= 0` or the source is non-empty; `max(size, 0)` members of the source after as many draws of this generator alone; otherwise `TypeError`, `OverflowError` or `IndexError`, in that order of precedence, with nothing drawn |
| DrawLaws.SelectionPickWithoutReplacement | argument_randomiser/rand.py:143-144 | once the value read for `replacement` is falsy, on any source and size read: success iff both have the right type and `0 <= size <= len(source)`; `size` members from distinct positions after as many draws of this generator alone; otherwise `TypeError` or `ValueError` with nothing drawn |
| RandomiserLaws.IntScalar | argument_randomiser/rand.py:94-95 | without a size: success iff `low <= high`, an integer of `[low, high]`, only this generator moved, by one; otherwise `ValueError` with nothing drawn |
| RandomiserLaws.IntSized | argument_randomiser/rand.py:97-100 | with a size and any `ordered` that is not a randomiser: success iff the range has at most `sys.maxsize` members, the size fits a `Py_ssize_t`, and `size <= 0` or `low <= high`; a tuple of exactly the `max(size, 0)` drawn integers, all in range; in draw order when `ordered` is falsy, ascending when truthy; only this generator moved, by that many draws; otherwise `OverflowError` when either count is too large, else `IndexError`, with nothing drawn |
| RandomiserLaws.IntPlainCall | argument_randomiser/rand.py:89-97 | bounds and size that are not randomisers are read without drawing: the call is the draw step on them, i.e. one `randint` that moves only this generator, or the sized half on the store as it was |
| RandomiserLaws.IntTupleDrawn | argument_randomiser/rand.py:97-100 | once `choices` succeeded, with an `ordered` that is not a randomiser: a tuple holding exactly the drawn integers, in draw order when `ordered` is falsy, ascending when truthy and `low <= high`; only this generator moved, by that many draws |
| RandomiserLaws.IntTupleValue | argument_randomiser/rand.py:97-100 | once `choices` succeeded, reading an `ordered` that is not a randomiser draws nothing: the tuple is the draws arranged by its truthiness, and only this generator moved, to where `choices` left it |
| RandomiserLaws.DescendingBoundsYieldEmpty | argument_randomiser/rand.py:97-99 | with `low > high` a successful sized call returns the empty tuple, whatever `ordered` is, a nested randomiser included |
| RandomiserLaws.SelectionScalar | argument_randomiser/rand.py:138-139 | without a size, over any list, tuple or string: success iff the source is non-empty, a member of the source after one draw that moves only this generator; otherwise `IndexError` with nothing drawn |
| RandomiserLaws.SelectionPlainCall | argument_randomiser/rand.py:134-139 | a source and size that are not randomisers are read without drawing: the call is the draw step on them, i.e. one `choice` that moves only this generator, or the sized half on the store as it was |
| RandomiserLaws.SelectionWithReplacement | argument_randomiser/rand.py:141-142 | with a truthy `replacement` that is not a randomiser, over any list, tuple or string: success iff the size fits a `Py_ssize_t` and `size <= 0` or the source is non-empty; a tuple of `max(size, 0)` members of the source after as many draws; otherwise `OverflowError` for a size too large in magnitude, else `IndexError`, with nothing drawn |
| RandomiserLaws.WideRangeOverflows | argument_randomiser/rand.py:97 | `IntRandomiser(0, 2**64 - 1, size=k)` raises `OverflowError` for every integer `k`, `0` included, and draws nothing |
| RandomiserLaws.HugeNegativeSizeOverflows | argument_randomiser/rand.py:141-142 | `SelectionRandomiser(source, size=-2**64, replacement=True)` raises `OverflowError` rather than returning an empty tuple, and draws nothing |
| RandomiserLaws.SelectionWithoutReplacement | argument_randomiser/rand.py:143-144 | with a falsy `replacement` that is not a randomiser, over any list, tuple or string: success iff `0 <= size <= len(source)`, and a tuple of `size` members from distinct positions after `size` draws; otherwise `ValueError` with nothing drawn |
| RandomiserLaws.SelectionDefaultSamples | argument_randomiser/rand.py:128 | `SelectionRandomiser(source, size=k)` keeps the default `replacement=False` and samples: success iff `0 <= k <= len(source)`, members from distinct positions |
| RandomiserLaws.SelectionSizedValue | argument_randomiser/rand.py:141-144 | with a size and a `replacement` that is not a randomiser, the call is one `choices` when `replacement` is truthy and one `sample` otherwise; its failure is the call's, and only this generator moves |
| RandomiserLaws.DistinctPositionsDistinctMembers | argument_randomiser/rand.py:143-144 | from a source without repeats, a sample has no repeats |
| RandomiserLaws.SeededReproducible | argument_randomiser/rand.py:57-59 | two randomisers, in any two stores, whose parameters are plain values and whose generators share seed and position generate the same value and end at the same position; `Locality.GenerateDependsOnPrefix` covers nested randomisers |
| RandomiserLaws.NestedReadsAfresh | argument_randomiser/rand.py:74-78 | parameters are not cached: `IntRandomiser(r, r)` over `r = IntRandomiser(a, a)` returns `a`, `r`'s generator moves by two draws (one per read) and the caller's by one, and nothing else changes |
| RandomiserLaws.ReadConstant | argument_randomiser/rand.py:74-78 | reading a parameter that is `IntRandomiser(a, a)` returns `a` and moves that randomiser's generator alone, by one draw |
| RandomiserLaws.NestedLowBound | argument_randomiser/rand.py:74-78 | `IntRandomiser(r, hi)` with a nested `r`: success iff `r` returns an integer no greater than `hi`; then an integer between that value and `hi`; `r` draws first, then the caller once |
| RandomiserLaws.NestedSource | argument_randomiser/rand.py:74-78 | `SelectionRandomiser(r)` with a nested `r`: success iff `r` returns a non-empty list, tuple or string; then a member of it; `r` draws first, then the caller once |
| Locality.GenerateDependsOnPrefix | argument_randomiser/rand.py:57-59 | in two stores that agree on the caller and every randomiser constructed before it, a call gives the same value or the same exception and leaves those objects alike: a seeded randomiser reproduces its values, nested randomisers included |
| Locality.ReadAttrDependsOnPrefix | argument_randomiser/rand.py:74-78 | the same for reading a parameter: it depends only on the objects constructed before the reader |
| Resolution.Resolve | argument_randomiser/rand.py:16-22 | resolution keeps every object, parameter and seed, only moves generators forward, and produces no new randomiser |
| Resolution.ResolveItems | argument_randomiser/rand.py:20 | the rebuilt container has as many items as the original |
| Resolution.ResolveByLeaves | argument_randomiser/rand.py:16-22 | resolving equals calling each randomiser the walk meets once, left to right, then putting each value where its randomiser stood; the first failure stops it |
| Resolution.ResolveItemsByLeaves | argument_randomiser/rand.py:20 | the same for the items of a list or tuple |
| Resolution.CallAllAppend | argument_randomiser/rand.py:20 | calling two runs of randomisers one after the other equals calling their concatenation |
| Resolution.ResolveShape | argument_randomiser/rand.py:16-22 | a list stays a list and a tuple a tuple, of the same length, item by item; strings and other values are returned unchanged |
| Logging.Logged | argument_randomiser/rand.py:24-33 | the log has exactly the keys not starting with `_` and not ignored; a value without an attribute dictionary is logged as it is |
| Logging.LogOf | argument_randomiser/rand.py:28-32 | a value is logged as it is iff it has no attribute dictionary; an object is logged with the keys of its attributes not starting with `_` (nothing ignored) plus `_cls` naming its class; a randomiser with the keys of its `__dict__` plus `_cls` naming its class; the entries are stated by `ObjectLogged` and `RandomiserLogged` |
| Logging.ObjectLogged | argument_randomiser/rand.py:28-30 | each kept attribute of an object is logged, nested, as the log of that attribute |
| Logging.RandomiserLogged | argument_randomiser/rand.py:28-30 | a randomiser is logged as its `__dict__`: each entry is the log of that attribute, so a nested randomiser is logged by its own dictionary and is not called |
| Logging.AttrDict | argument_randomiser/rand.py:83-86 | a randomiser's `__dict__` holds exactly its constructor parameters (`low`, `high`, `size`, `ordered`; or `source`, `size`, `replacement` as set at rand.py:129-131) and `gauss_next`, which is `None` |
| Logging.ClassName | argument_randomiser/rand.py:30 | `__class__.__name__` names each kind of randomiser, one name per kind |
| Logging.WithClass | argument_randomiser/rand.py:29-30 | a nested log has the keys of its entries plus `_cls`; `_cls` names the class, and every other entry is kept as it was |
| Logging.ArgumentLog | argument_randomiser/rand.py:24-33 | the loop over the items builds exactly the log `Logged` specifies |
| Wrapping.ToDict | argument_randomiser/rand.py:39 | the dictionary has exactly the keyword names, and each value is one given for that name |
| Wrapping.ToDictDistinct | argument_randomiser/rand.py:39 | when no name is given twice, as in any Python call, each name maps to exactly the value given with it |
| Wrapping.ResolveCall | argument_randomiser/rand.py:38-39 | resolution keeps objects, parameters and seeds, only moves generators forward, and keeps the number of positional arguments and the keyword names; order and values are stated by `ResolveCallByLeaves` |
| Wrapping.ResolveCallByLeaves | argument_randomiser/rand.py:38-39 | resolving a call equals calling every randomiser met in the positional arguments and then in the keyword values, once each in that order, and putting each value where its randomiser stood; the first failure stops it |
| Wrapping.Wrapper.constructor | argument_randomiser/rand.py:49-50 | a new wrapper has an empty history and no last call; no ignore list means an empty one |
| Wrapping.Wrapper.Call | argument_randomiser/rand.py:36-47 | on success the log of the resolved keywords is appended and becomes the last call, and the function gets the same resolved arguments, its outcome passed on; a resolution failure records nothing and does not call the function |
| Scenarios.NoRandomiserUnchanged | argument_randomiser/rand.py:19-22 | a value that holds no randomiser resolves to itself and draws nothing |
| Scenarios.NoRandomiserItemsUnchanged | argument_randomiser/rand.py:20 | the same for a sequence of items |
| Scenarios.ListShape | argument_randomiser/rand.py:16-22 | a list `[IntRandomiser(n, n), v]`, with `v` free of randomisers, resolves to the list `[n, v]` |
| Scenarios.IgnoredKeywordLog | argument_randomiser/rand.py:27 | `{'a': 1, 'b': 2}` with `b` ignored logs `{'a': 1}` |
| Scenarios.IgnoredKeywordExample | argument_randomiser/rand.py:42-47 | a call whose function raises still leaves its entry `{'a': 1}` in the history, and the exception is passed on |
| Scenarios.ThreeCalls | argument_randomiser/rand.py:44-45 | three calls leave three entries in call order, and the last call is the third |
| Scenarios.CallWithoutRandomisers | argument_randomiser/rand.py:36-47 | a call without randomisers appends the log of its keywords as given |
| Scenarios.LiteralCall | argument_randomiser/rand.py:38-39 | arguments without randomisers resolve to themselves |

## Left out

- `FloatRandomiser` (rand.py:103-124) is not modelled: it works on floating-point values and rounding.
- The Mersenne Twister and its seeding are not modelled. A draw is whatever the oracle gives at the generator's seed and position. A seed is an integer or `None`; other seed types are not modelled.
- Draw counts are idealised to one draw per value. `randbelow` may reject and redraw, and `sample` in CPython can use a set-based method. These change which values come out, not the properties proved. For the same reason `Draws.Pick` is not CPython's exact `sample` algorithm: it only promises distinct positions.
- Error paths draw nothing. Exceptions a primitive raises part-way (after some draws) are not distinguished.
- `generate_arguments` only rebuilds lists and tuples. Other iterables are outside the value domain. Sets, frozensets and `bytes` would be rebuilt by `type(value)(list)` at rand.py:20. A `range` or a generator would raise `TypeError` there. A `dict` would be rebuilt from its keys, so it raises `ValueError` or `TypeError` unless every key is a two-item iterable. A user-defined object is modelled as not iterable. An iterable one is not modelled.
- Values.Truthy, Values.AsInt: an `Obj` stands for an instance whose class defines no `__bool__`, `__len__` or `__index__`. Such an instance is always truthy (rand.py:98, rand.py:141) and is not an integer to `randint`/`range` (rand.py:95, rand.py:97). Instances of other classes can be falsy or accepted as integers, and are not modelled.
- Reassigning a randomiser's parameters after construction is not modelled. Parameters are fixed when the object is created.
- The log holds values, not references. Mutating an argument after the call, which in Python would also change the logged value, is not modelled.
- The wrapped function is a pure function from the resolved arguments to a return value or a raised exception. Its side effects are not modelled.
- `functools.wraps`, `__repr__` and `_make_callable` (rand.py:61-72) are not modelled. They do not affect generation or logging.
- Concurrency is not modelled.
- Randomisers.CallInt: the descending reversal `[::-1]` at rand.py:99 is modelled as written. Because `range(low, high + 1)` is empty when `low > high`, it can only ever reverse an empty tuple; `RandomiserLaws.DescendingBoundsYieldEmpty` states this.
