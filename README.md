# datacrystals, modelled in Dafny

datacrystals turns annotated Python classes into *crystals*: frozen dataclasses
with value equality, a human-readable `str()` and a `__dir__()` limited to the
declared fields. For each crystal type it also builds a *collection* type: an
append-only table with one column per field and one row per instance. The
table supports `len`, `in`, iteration that rebuilds instances from the rows,
an `optimize` copy and a banner-style `str()`. Beside these, the metaclass
`CrystalMeta` annotates every public class attribute with the type of its
value. It also gives classes a repr that lists their annotations, compares
classes attribute by attribute and refuses assignment to class attributes.
The OHLC example builds a `Candle` crystal of four integers and folds a
collection of candles into one candle.

The model has one module per concern:

- `Crystals` (`crystals.dfy`) models `_crystals.py`: the decorator, the
  generated keyword `__init__`, `__str__`, `__dir__`, `__eq__` and
  frozenness.
- `Collections` (`collection.dfy`) models `_collection.py`. `Collection` is a
  class whose `df` field is the table. Its ghost `elements` are the appended
  instances.
- `Meta` (`meta.dfy`) models `_meta.py`. `Namespace` is the class body's
  dict, which `__new__` rewrites in place. `PyClass` is the class object
  that results.
- `Ohlc` (`ohlc.dfy`) models `examples/ohlc.py`.
- `Strings`, `Values`, `OrderedDicts` and `Results` are shared helpers:
  - `Strings` has joining and splitting, `"-" * n` and the substring test.
  - `Values` models the Python values held in fields and namespaces, with
    `type(v)`, `str(v)` and `str(type)`.
  - `OrderedDicts` models insertion-ordered dicts.
  - `Results` has `Option` and `Result`.

Identity matters in Python in three places: dataclass `__eq__` compares
classes with `is`, `type` makes per-class `__dict__`/`__weakref__`
descriptors, and `lru_cache` hands back the same class object. The model
stands for identity with an `id: nat` token carried by `CrystalType` and
`PyClass`.

Where the code and its documentation part ways, the model follows the code.

- No type check: construction never compares a value with its field's
  declared type. Neither does building a collection from, or appending, an
  instance of another type. The model therefore has no type-mismatch error.
  Element types are preconditions, as the code's annotations
  `*inners: _cls`, `elem: _cls` and `item: _cls` say.
- Append rebuilds the table: `__call__` builds a new table and replaces the
  old one. The model's `Append` gives the collection a fresh `Frame` that
  holds the old rows plus the new one.
- No order-independent signature: crystal types are dataclasses made once
  per decorated class. Nothing hashes a field signature.

Three places deviate from the code as written; each entry says where the
intended behaviour comes from, and each is recorded on the members
concerned:

- `Collection.Contains`: the comparison at `_collection.py:90` passes
  `Field` objects to `getattr`, which raises. Looked up by name, it would
  compare whole columns with a value, and `all` over those comparisons
  would raise as well. The source comments do not describe a row-wise
  rule. The model's rule is that some row agrees with the item on every
  field. That rule comes from the membership test
  (`datacrystals/tests/test_collection.py:77-88`) and from the
  `abc.Collection` interface the class claims to implement, in which `in`
  agrees with iteration. It does not come from the expression as written.
- `Collection.Append`: `DataFrame.append` of a `dict` is called without
  `ignore_index` at `_collection.py:155`, which pandas refuses. The intent is
  plain from the call itself: the instance's `asdict` becomes one new row
  after the others, and the collection is returned. The model appends one row.
- `Collection.Optimize`: `getattr(opt_copy, f)` at `_collection.py:78` is
  given a `Field` object, so it raises `TypeError`. That happens on a
  non-empty table whose Inner has a `Decimal` field. `str()` raises there
  too, because both renderings call `optimize`. The intent is the comment
  at `_collection.py:75`, which announces the narrowing of `Decimal` fields
  to floats. The model
  returns the copy without it (see "## Left out").

One behaviour of the program as written is excluded by a precondition and
not modelled: iterating a non-empty collection raises `TypeError` when
Inner has a field whose name starts with `_` or is `Index`. `itertuples`
renames such a column (to `_1`, say), and `__iter__` then passes the
renamed keyword to Inner's `__init__`, which has no such parameter. The
model requires Inner's field names to be `TupleSafe`.

## Model

| member | source | states |
|---|---|---|
| Crystals.MakeDataclass | datacrystals/_crystals.py:73-98 | decorating succeeds if and only if no default is a `list`, `dict` or `set`, no field without a default follows one with a default, and every field name is an identifier that is not reserved; a later check is reported only when the earlier ones pass, and the error names the first field, in declaration order, that fails its check; on success the dataclass has one field per annotation, in declaration order and with distinct names; each field's type is its annotation and its default is the class-level value, if any; the class identity, name and `order` flag are kept |
| Crystals.CheckDeclaration | datacrystals/_crystals.py:75-84 | the checks `dataclass` makes pass if and only if no default is a `list`, `dict` or `set`, defaults come last and every name is a non-reserved identifier; a mutable default is reported first, then a field without a default after one with a default, then an invalid name, each naming the first field in declaration order that fails |
| Crystals.DefaultBeforeRequired | datacrystals/_crystals.py:75-84 | annotations `a` then `b` with only `a` given a value are refused, naming `b` |
| Crystals.DataCrystal | datacrystals/_crystals.py:101-155 | called without a class, the decorator returns a wrapper that decorates whatever class it is given; called with one, it returns what decorating that class gives |
| Crystals.PartialApplication | datacrystals/_crystals.py:149-155 | the wrapper applied to a class gives the same result as passing the class directly, and a type so made has the class's annotations as fields |
| Crystals.FirstUnexpected | datacrystals/_crystals.py:75-84 | none is found exactly when every keyword names a field; what is found is a keyword that names no field |
| Crystals.MissingRequired | datacrystals/_crystals.py:75-84 | the result is empty exactly when every field is supplied or has a default; each name in it is a field without a default that is not supplied, and every such field is listed, in declaration order |
| Crystals.FieldValues | datacrystals/_crystals.py:75-84 | the instance has a value for exactly the declared fields: the argument when one is given, otherwise the default |
| Crystals.Construct | datacrystals/_crystals.py:75-84 | keyword construction succeeds if and only if every keyword is a field and every field is supplied or has a default; success gives a complete instance of that type with those values; otherwise the first keyword, in argument order, that names no field is reported; only when every keyword is a field are the missing fields reported, and they are exactly the unsupplied fields without a default, in declaration order |
| Crystals.AsDict | datacrystals/_collection.py:58 | `asdict` keys the field values by field name, the keys in declaration order |
| Crystals.ConstructAsDict | datacrystals/_collection.py:96-102 | building an instance from `asdict` of an instance gives that same instance back |
| Crystals.FieldLines | datacrystals/_crystals.py:20-21 | one `name: value` line per field, in declaration order |
| Crystals.Str | datacrystals/_crystals.py:16-23 | the loop builds the type name, a rule of `-` as long as the name, then the field lines, all joined by line breaks |
| Crystals.RenderingStartsWithBanner | datacrystals/_crystals.py:18-19 | `str()` starts with the type name, a line break and a rule of the same length |
| Crystals.RenderingLines | datacrystals/_crystals.py:16-23 | if no name or shown value holds a line break, splitting `str()` on line breaks gives back the banner and the field lines |
| Crystals.RenderingMentions | datacrystals/_crystals.py:20-23 | `str()` contains the type name and every `name: value` pair |
| Crystals.Dir | datacrystals/_crystals.py:26-28 | `__dir__()` lists each field once and nothing else |
| Crystals.DirIsDeclaration | datacrystals/_crystals.py:26-28 | on a decorated class, `__dir__()` of an instance is exactly the annotations, in declaration order |
| Crystals.Eq | datacrystals/_crystals.py:75-84 | the generated `__eq__` holds if and only if the instances have the same type and the same field values |
| Crystals.EqIsEquivalence | datacrystals/_crystals.py:75-84 | instance equality is reflexive, symmetric and transitive |
| Crystals.ZeroFieldsAllEqual | datacrystals/_crystals.py:75-84 | any two instances of a type with no fields are equal |
| Crystals.SetField | datacrystals/_crystals.py:75-84 | assigning a field of an instance (`frozen=True`) always fails with the error for assignment |
| Crystals.DelField | datacrystals/_crystals.py:75-84 | deleting a field of an instance always fails with the error for deletion |
| Collections.Frame.Copy | datacrystals/_collection.py:72 | the deep copy is a new table with the same columns and rows |
| Collections.RowsOf | datacrystals/_collection.py:57-60 | one row per instance, in order, holding that instance's field values |
| Collections.RowTuple | datacrystals/_collection.py:97-99 | a tuple of `itertuples(index=True)` has `Index` first, holding the row's position, then the columns with the row's values |
| Collections.DropIndex | datacrystals/_collection.py:99 | dropping `Index` keeps every other key, in order, with its value, and nothing else |
| Collections.TupleRoundTrip | datacrystals/_collection.py:97-99 | dropping `Index` from a row's named tuple gives `asdict` of the instance stored there |
| Collections.Rebuild | datacrystals/_collection.py:97-102 | rebuilding an instance from a row's tuple without `Index` gives the instance stored in that row |
| Collections.Collection.constructor | datacrystals/_collection.py:55-63 | a new table with a column per field of Inner (even when there are no rows) and one row per given instance, in order |
| Collections.Collection.TypeName | datacrystals/_collection.py:161 | the collection type is named after Inner followed by `Collection` |
| Collections.Collection.Len | datacrystals/_collection.py:106-107 | `len` is the number of instances held |
| Collections.Collection.Contains | datacrystals/_collection.py:86-92 | `item in c` holds if and only if the item is one of the instances held; so it is false on an empty collection |
| Collections.Collection.RebuildRow | datacrystals/_collection.py:97-102 | rebuilding row `i` gives the `i`-th instance held |
| Collections.Collection.Iterate | datacrystals/_collection.py:96-102 | the loop yields exactly the held instances, in append order, as many as `len`; each has Inner's fields and no `Index` |
| Collections.Collection.Append | datacrystals/_collection.py:154-156 | calling the collection with an instance adds it last, appends its row to a new table, keeps the columns and returns the collection itself |
| Collections.Collection.Optimize | datacrystals/_collection.py:71-80 | `optimize` returns a new table with Inner's columns and the same rows, leaving the collection unchanged |
| Collections.Collection.Dir | datacrystals/_collection.py:111-118 | `__dir__()` is `strategy`, `Inner`, `optimize`, followed by the field names of Inner in declaration order, and holds no other name |
| Collections.Collection.StrRaw | datacrystals/_collection.py:141-150 | without `tabulate`, `str()` is the banner for the collection's type name followed by one line per column name |
| Collections.Collection.StrTab | datacrystals/_collection.py:126-135 | with `tabulate`, `str()` is the banner, a line break and the table as `tabulate` renders it |
| Collections.IteratedAreContained | datacrystals/_collection.py:86-102 | every instance produced by iteration is in the collection, and there are `len` of them |
| Collections.EmptyContainsNothing | datacrystals/_collection.py:88-92 | an empty collection contains nothing |
| Collections.NoFieldsContainsAll | datacrystals/_collection.py:90-91 | for an Inner without fields, a non-empty collection contains every instance |
| Collections.RawRenderingShape | datacrystals/_collection.py:141-150 | the plain rendering starts with the banner and shows the type name and every field name |
| Collections.TabRenderingStart | datacrystals/_collection.py:126-135 | the tabulated rendering starts with the type name, a line break and its rule |
| OrderedDicts.Pop | datacrystals/_meta.py:22-23 | `attrs.pop(k, None)` removes the key and keeps the others in order; a missing key leaves the dict as it was |
| OrderedDicts.Put | datacrystals/_meta.py:35-37 | storing a key keeps an existing key in its place and appends a new key at the end |
| Meta.Cleaned | datacrystals/_meta.py:21-23 | the namespace loses `__dict__` and `__weakref__` and keeps everything else, in order |
| Meta.AnnotateAll | datacrystals/_meta.py:32-37 | after the loop, the old annotations keep their place at the front and their values; every visited public name is annotated; every new annotation is the type of a visited public attribute's value |
| Meta.Annotated | datacrystals/_meta.py:28-37 | given annotations are kept unchanged and in front (an empty dict stands in when there are none); every public attribute of the namespace is annotated; an annotation that was not given is the type of that attribute's value |
| Meta.AnnotateAttributes | datacrystals/_meta.py:32-37 | the loop leaves the namespace values untouched and turns the annotations into what the fold over the namespace keys gives |
| Meta.TypeNew | datacrystals/_meta.py:39 | `type.__new__` with no bases fails if and only if `__qualname__` is given and is not a string; on success the class has the metaclass, identity and name given; `__qualname__` has left its namespace; `__module__` and `__doc__` are present; every other attribute is kept with its value; the annotations are as given |
| Meta.New | datacrystals/_meta.py:14-39 | `__new__` rewrites the namespace in place to the cleaned namespace and the completed annotations, then builds the class from it, whatever bases were passed |
| Meta.EveryPublicAttributeAnnotated | datacrystals/_meta.py:32-39 | every public entry of `vars(cls)` of a class so built has an annotation |
| Meta.VarsOf | datacrystals/_meta.py:49-58 | `vars(cls)` holds the namespace values, `__annotations__` as a dict, and `__dict__`/`__weakref__` descriptors that belong to this class |
| Meta.AnnotationItems | datacrystals/_meta.py:43 | one `name: type` item per annotation, in annotation order |
| Meta.Repr | datacrystals/_meta.py:41-47 | the repr always starts with `<class 'module.qualname` and ends with `'>` |
| Meta.ReprForm | datacrystals/_meta.py:41-47 | without annotations the repr is `<class 'module.qualname'>`; with annotations they are spliced, comma-separated, into `[...]` before the closing `'>` |
| Meta.ReprMentions | datacrystals/_meta.py:41-47 | the repr contains the module, the qualified name and every `name: type` annotation |
| Meta.Eq | datacrystals/_meta.py:49-58 | equal classes have the same metaclass and the same annotations |
| Meta.EqIsEquivalence | datacrystals/_meta.py:49-58 | class equality is reflexive, symmetric and transitive |
| Meta.EqIsAttributeEquality | datacrystals/_meta.py:49-58 | for classes as `__new__` builds them, equality holds if and only if the metaclasses are the same, the namespaces hold the same values and the annotations are the same, irrespective of order |
| Meta.EqIgnoresNameAndIdentity | datacrystals/_meta.py:49-58 | two classes built from the same namespace are equal whatever their names and identities |
| Meta.SetAttr | datacrystals/_meta.py:60-61 | assigning an attribute of such a class always fails with the immutability error |
| Ohlc.CandleType | examples/ohlc.py:4-14 | `Candle` has the fields open, high, low and close, in that order, each an `int` without default |
| Ohlc.CandleDecorated | examples/ohlc.py:4-14 | decorating the `Candle` class succeeds and gives that type |
| Ohlc.CandleRecord | examples/ohlc.py:22-27 | a candle's record is a complete `Candle` instance whose prices read back as that candle |
| Ohlc.ConstructCandle | examples/ohlc.py:22-27 | `Candle(open=…, high=…, low=…, close=…)` always succeeds and gives the record of those prices |
| Ohlc.RecordOfRow | examples/ohlc.py:22-27 | a `Candle` instance with integer prices is the record of its own prices |
| Ohlc.MakeCandle | examples/ohlc.py:33 | constructing a candle gives its record |
| Ohlc.MaxHigh | examples/ohlc.py:24 | `max(df.high)` is at least every row's high and equals some row's high |
| Ohlc.MinLow | examples/ohlc.py:25 | `min(df.low)` is at most every row's low and equals some row's low |
| Ohlc.AsCandle | examples/ohlc.py:21-27 | the fold fails if and only if there is no candle; otherwise its open is the first candle's open, its close is the last candle's close, its high is the highest high and its low is the lowest low |
| Ohlc.CollectionCandle | examples/ohlc.py:21-27 | `as_candle` on a collection fails if and only if the collection is empty; otherwise it returns a complete `Candle` whose prices are the fold of the held candles, in order |
| Ohlc.WorkedExample | examples/ohlc.py:32-34 | candles (1, 4, 1, 3) and (3, 5, 2, 2) fold into (1, 5, 1, 2) |
| Ohlc.ExampleAggregate | examples/ohlc.py:21-34 | `as_candle` on the example collection gives `Candle(1, 5, 1, 2)` |
| Ohlc.ExampleMembership | examples/ohlc.py:32-34 | the example collection has length 2, contains both candles and does not contain their aggregate |
| Ohlc.BuildOhlc | examples/ohlc.py:17-34 | building the example collection gives a collection of `Candle` holding the two candles in order, and its `as_candle` is `Candle(1, 5, 1, 2)` |

## Left out

- Random instance generation (`strategy` on crystals and collections, and the hypothesis tests): these draw random values.
- pydantic validation and the fallback warnings printed by `_make_dataclass`: validation is a third-party engine, and the warnings are output. The model follows the plain-dataclass path, which checks no types.
- The `repr=True` dataclass repr of instances: it is standard-library formatting, and no contract of the core depends on it.
- Ordering (`order=True`) comparisons of instances: the flag is recorded on the type, but the generated `<`, `<=`, `>` and `>=` are not modelled.
- Hashing: with `eq=True, frozen=True` dataclasses derive `__hash__` from the field tuple; the model has no hash.
- Positional construction arguments: the model's `__init__` takes keyword arguments only, which is how every call in the core passes them.
- `lru_cache` on `_make_dataclass` and `_collection_from_class`: memoisation makes repeated calls return the same class object. The model has no cache; identity is a parameter (`id`).
- The doctest claim `collec2 == collec`: the collection type defines no `__eq__`, so Python compares collections by identity. Collection equality is not modelled.
- `Collections.Collection.Optimize`: as written, the `Decimal` step raises `TypeError` (see above), and `convert_dtypes()` discards its result. The intended narrowing of `Decimal` columns to `float64` needs floating point, so the model's copy keeps the values as they are.
- `Collections.Collection.StrTab`: what `tabulate` draws is a parameter of the model, not a definition.
- `Collections.Collection.StrRaw`: the `str()` of each column name is the name itself. The model covers string column names only.
- The `namedtuple` renaming in `itertuples`: it renames reserved words, non-identifiers, names starting with `_` and repeated names, so also a field called `Index`. In the program, iterating a non-empty collection whose Inner has a field starting with `_` or named `Index` therefore raises `TypeError` at `_collection.py:100-102` (an unexpected keyword). The model requires Inner's field names to be none of these (`TupleSafe`), so that failure and the renaming itself are not modelled.
- `Crystals.AsDict`: field values are treated as atomic. `dataclasses.asdict` turns a field holding another dataclass instance into a dict and copies lists, tuples and dicts recursively, so in Python `Inner(**asdict(x))` gives `x` back only when no field holds such a value. `Crystals.ConstructAsDict`, `Collections.TupleRoundTrip`, `Collections.Rebuild` and the `out == elements` of `Collections.Collection.Iterate` hold for such atomic values only; an `OtherVal` here stands for a value that is neither a dataclass instance nor a container.
- `Collections.Collection.Len`: the model assumes a table with no columns still has one row per record. pandas may build an empty index for `from_records` of empty dicts with no columns, and then `len` would be 0. `Collections.NoFieldsContainsAll` rests on the same assumption.
- `Crystals.Eq`: values compare structurally. Python's `==` also makes `1`, `True` and `1.0` equal and two `Decimal`s with different `str()` (such as `1.0` and `1.00`) equal. It makes a NaN unequal to itself. None of this is modelled.
- `Collections.Collection.Contains`: the same structural comparison of values. For a NaN field, Python would not find an iterated instance in its collection, while `Collections.IteratedAreContained` holds in the model.
- `Meta.Eq`: the same structural comparison of namespace values. Functions in a class body compare by identity in Python.
- `Crystals.MakeDataclass`: a mutable default is recognised by its class being `list`, `dict` or `set`, not by an unhashable class. Field names are identifiers over ASCII letters, digits and `_`. `ClassVar`, `InitVar`, `field()` specifiers and inherited fields are not modelled.
- Laziness of iteration: `__iter__` is a generator. The model's `Iterate` returns the whole sequence at once.
- pandas storage details: dtypes, int64 conversion of stored integers and NaN for missing cells are left out, as is the `O(1)` cost of an append. The model stores values as given.
- `Meta.New`: the `typing.Any` branch at `_meta.py:37` cannot be taken, because every key visited is in the namespace. Methods and functions in a class body are values (`OtherVal`) known by their class and text.
- `Meta.TypeNew`: only the parts of `type.__new__` that the metaclass relies on are modelled. These are `__qualname__`, the `__module__` and `__doc__` defaults and the per-class `__dict__`/`__weakref__` descriptors. Slots, `__init_subclass__`, `__set_name__` and MRO computation are not modelled.
- `crystalize`, which hands a class to `shard`: the `shards` module is not part of this model. `Candle` is modelled as the crystal type the `datacrystal` decorator makes of it (`Ohlc.CandleDecorated`).
- The `setattr(OHLC, "as_candle", as_candle)` wiring: it is modelled as the function `Ohlc.CollectionCandle` over a collection.
- The interactive REPL at the end of `examples/ohlc.py`, the `__main__` demo in `_meta.py`, `noxfile.py` and `setup.py`: these are I/O and build tooling.
- Concurrency: the collection gives no guarantee under concurrent appends, and none is modelled.
