/** Crystals: frozen, value-equal record types made by the `datacrystal`
    decorator from an annotated class, their instances, the human-readable
    rendering and the field-only introspection. */
module Crystals {
  import opened Results
  import opened Values
  import opened Strings
  import opened OrderedDicts

  /** A dataclass field: its name, its annotated type and its class-level default. */
  datatype Field = Field(name: string, typ: TypeTag, default: Option<Value>)

  /** A crystal type. `id` stands for the identity of the class object, which
      the generated `__eq__` compares with `is`; `order` is the decorator's flag. */
  datatype CrystalType = CrystalType(id: nat, name: string, fields: seq<Field>, order: bool)
  {
    /** The names of the dataclass fields, in declaration order. */
    function FieldNames(): (r: seq<string>)
      ensures |r| == |fields|
      ensures forall i :: 0 <= i < |fields| ==> r[i] == fields[i].name
    {
      Names(fields)
    }

    /** Field names are unique. */
    ghost predicate Valid()
    {
      Distinct(FieldNames())
    }
  }

  function Names(fields: seq<Field>): (r: seq<string>)
    ensures |r| == |fields|
    ensures forall i :: 0 <= i < |fields| ==> r[i] == fields[i].name
  {
    seq(|fields|, i requires 0 <= i < |fields| => fields[i].name)
  }

  /** An instance: the values of its type's fields, by field name. */
  datatype Crystal = Crystal(ty: CrystalType, values: map<string, Value>)
  {
    /** Every declared field has a value and nothing else has one: there are
        no partial instances. */
    ghost predicate Valid()
    {
      ty.Valid() && forall n :: n in values <==> n in ty.FieldNames()
    }
  }

  /** A class as the decorator receives it: its identity, `__name__`, its
      `__annotations__` in declaration order and its class-level values. */
  datatype ClassDecl = ClassDecl(id: nat, name: string, annotations: PyDict<TypeTag>, namespace: map<string, Value>)

  function DeclaredField(decl: ClassDecl, name: string): Field
    requires name in decl.annotations.entries
  {
    Field(name, decl.annotations.entries[name],
          if name in decl.namespace then Some(decl.namespace[name]) else None)
  }

  /** Python's reserved words: none can name a parameter of the generated `__init__`. */
  const Keywords: set<string> := {
    "False", "None", "True", "and", "as", "assert", "async", "await", "break", "class", "continue",
    "def", "del", "elif", "else", "except", "finally", "for", "from", "global", "if", "import", "in",
    "is", "lambda", "nonlocal", "not", "or", "pass", "raise", "return", "try", "while", "with", "yield"}

  predicate IdentifierStart(ch: char)
  {
    'a' <= ch <= 'z' || 'A' <= ch <= 'Z' || ch == '_'
  }

  predicate IdentifierPart(ch: char)
  {
    IdentifierStart(ch) || '0' <= ch <= '9'
  }

  /** `name.isidentifier() and not keyword.iskeyword(name)`, for ASCII names. */
  predicate IsIdentifier(name: string)
  {
    |name| > 0 && IdentifierStart(name[0]) && (forall i :: 1 <= i < |name| ==> IdentifierPart(name[i])) &&
    name !in Keywords
  }

  /** The class body gives `name` a value, which the field takes as its default. */
  predicate HasDefault(decl: ClassDecl, name: string)
  {
    name in decl.namespace
  }

  /** A default `dataclass` refuses: a `list`, a `dict` or a `set`. */
  predicate IsMutableDefault(v: Value)
  {
    v.OtherVal? && v.cls in {"list", "dict", "set"}
  }

  /** Why `dataclass` rejects a class. */
  datatype DataclassError =
    | MutableDefault(field: string)           // ValueError: mutable default for the field
    | NonDefaultAfterDefault(field: string)   // TypeError: non-default argument follows default argument
    | InvalidFieldName(field: string)         // SyntaxError while compiling the generated __init__

  /** Field `keys[j]` has a default that is mutable. */
  predicate MutableAt(decl: ClassDecl, keys: seq<string>, j: nat)
    requires j < |keys|
  {
    HasDefault(decl, keys[j]) && IsMutableDefault(decl.namespace[keys[j]])
  }

  /** Field `keys[j]` has no default, yet a field before it has one. */
  predicate LateRequired(decl: ClassDecl, keys: seq<string>, j: nat)
    requires j < |keys|
  {
    !HasDefault(decl, keys[j]) && exists i :: 0 <= i < j && HasDefault(decl, keys[i])
  }

  /** The position, from `from` on, of the first field of `keys` whose default
      is mutable: where `_get_field` raises. */
  function FirstMutableDefault(decl: ClassDecl, keys: seq<string>, from: nat): (r: Option<nat>)
    requires from <= |keys|
    ensures r.None? <==> forall j :: from <= j < |keys| ==> !MutableAt(decl, keys, j)
    ensures r.Some? ==> from <= r.value < |keys| && MutableAt(decl, keys, r.value)
    ensures r.Some? ==> forall j :: from <= j < r.value ==> !MutableAt(decl, keys, j)
    decreases |keys| - from
  {
    if from == |keys| then None
    else if MutableAt(decl, keys, from) then Some(from)
    else FirstMutableDefault(decl, keys, from + 1)
  }

  /** The position, from `from` on, of the first field without a default that
      follows one with a default: where `_init_fn` raises. `seen` records
      whether a field before `from` has a default. */
  function FirstNonDefaultAfterDefault(decl: ClassDecl, keys: seq<string>, from: nat, seen: bool): (r: Option<nat>)
    requires from <= |keys|
    requires seen <==> exists i :: 0 <= i < from && HasDefault(decl, keys[i])
    ensures r.None? <==> forall j :: from <= j < |keys| ==> !LateRequired(decl, keys, j)
    ensures r.Some? ==> from <= r.value < |keys| && LateRequired(decl, keys, r.value)
    ensures r.Some? ==> forall j :: from <= j < r.value ==> !LateRequired(decl, keys, j)
    decreases |keys| - from
  {
    if from == |keys| then None
    else if seen && !HasDefault(decl, keys[from]) then
      assert LateRequired(decl, keys, from) by {
        var i :| 0 <= i < from && HasDefault(decl, keys[i]);
      }
      Some(from)
    else FirstNonDefaultAfterDefault(decl, keys, from + 1, seen || HasDefault(decl, keys[from]))
  }

  /** The position, from `from` on, of the first field of `keys` that cannot be
      a parameter name. */
  function FirstInvalidName(keys: seq<string>, from: nat): (r: Option<nat>)
    requires from <= |keys|
    ensures r.None? <==> forall j :: from <= j < |keys| ==> IsIdentifier(keys[j])
    ensures r.Some? ==> from <= r.value < |keys| && !IsIdentifier(keys[r.value])
    ensures r.Some? ==> forall j :: from <= j < r.value ==> IsIdentifier(keys[j])
    decreases |keys| - from
  {
    if from == |keys| then None
    else if !IsIdentifier(keys[from]) then Some(from)
    else FirstInvalidName(keys, from + 1)
  }

  /** Defaults trail exactly when no field is a required one after a default. */
  lemma DefaultsTrail(decl: ClassDecl, keys: seq<string>)
    ensures (forall i, j :: 0 <= i < j < |keys| && HasDefault(decl, keys[i]) ==> HasDefault(decl, keys[j])) <==>
      (forall j :: 0 <= j < |keys| ==> !LateRequired(decl, keys, j))
  {
    if forall i, j :: 0 <= i < j < |keys| && HasDefault(decl, keys[i]) ==> HasDefault(decl, keys[j]) {
      forall j | 0 <= j < |keys| ensures !LateRequired(decl, keys, j) {
        forall i | 0 <= i < j && HasDefault(decl, keys[i]) ensures HasDefault(decl, keys[j]) {
        }
      }
    }
    if forall j :: 0 <= j < |keys| ==> !LateRequired(decl, keys, j) {
      forall i, j | 0 <= i < j < |keys| && HasDefault(decl, keys[i]) ensures HasDefault(decl, keys[j]) {
        assert !LateRequired(decl, keys, j);
      }
    }
  }

  /** The per-name and the per-position readings of "no mutable default" and
      of "every name is an identifier" agree. */
  lemma ByPosition(decl: ClassDecl, keys: seq<string>)
    ensures (forall k :: k in keys && HasDefault(decl, k) ==> !IsMutableDefault(decl.namespace[k])) <==>
      (forall j :: 0 <= j < |keys| ==> !MutableAt(decl, keys, j))
    ensures (forall k :: k in keys ==> IsIdentifier(k)) <==> (forall j :: 0 <= j < |keys| ==> IsIdentifier(keys[j]))
  {
    if forall j :: 0 <= j < |keys| ==> !MutableAt(decl, keys, j) {
      forall k | k in keys && HasDefault(decl, k) ensures !IsMutableDefault(decl.namespace[k]) {
        var j :| 0 <= j < |keys| && keys[j] == k;
        assert !MutableAt(decl, keys, j);
      }
    }
  }

  /** No field has a mutable default. */
  predicate NoMutableDefault(decl: ClassDecl)
  {
    forall k :: k in decl.annotations.keys && HasDefault(decl, k) ==> !IsMutableDefault(decl.namespace[k])
  }

  /** Once a field has a default, every later field has one too. */
  predicate DefaultsLast(decl: ClassDecl)
  {
    forall i, j :: 0 <= i < j < |decl.annotations.keys| && HasDefault(decl, decl.annotations.keys[i]) ==>
      HasDefault(decl, decl.annotations.keys[j])
  }

  /** Every field name can be a parameter of `__init__`. */
  predicate NamesValid(decl: ClassDecl)
  {
    forall k :: k in decl.annotations.keys ==> IsIdentifier(k)
  }

  /** `name` is the first field, in declaration order, whose default is mutable. */
  predicate FirstMutableIs(decl: ClassDecl, name: string)
  {
    var keys := decl.annotations.keys;
    exists j :: 0 <= j < |keys| && keys[j] == name && MutableAt(decl, keys, j) &&
      forall i :: 0 <= i < j ==> !MutableAt(decl, keys, i)
  }

  /** `name` is the first field without a default that follows one with a default. */
  predicate FirstLateRequiredIs(decl: ClassDecl, name: string)
  {
    var keys := decl.annotations.keys;
    exists j :: 0 <= j < |keys| && keys[j] == name && LateRequired(decl, keys, j) &&
      forall i :: 0 <= i < j ==> !LateRequired(decl, keys, i)
  }

  /** `name` is the first field name that is not an identifier or is reserved. */
  predicate FirstInvalidIs(decl: ClassDecl, name: string)
  {
    var keys := decl.annotations.keys;
    exists j :: 0 <= j < |keys| && keys[j] == name && !IsIdentifier(name) &&
      forall i :: 0 <= i < j ==> IsIdentifier(keys[i])
  }

  lemma MutableCheck(decl: ClassDecl)
    ensures FirstMutableDefault(decl, decl.annotations.keys, 0).None? <==> NoMutableDefault(decl)
    ensures FirstMutableDefault(decl, decl.annotations.keys, 0).Some? ==>
      FirstMutableIs(decl, decl.annotations.keys[FirstMutableDefault(decl, decl.annotations.keys, 0).value])
  {
    ByPosition(decl, decl.annotations.keys);
  }

  lemma LateRequiredCheck(decl: ClassDecl)
    ensures FirstNonDefaultAfterDefault(decl, decl.annotations.keys, 0, false).None? <==> DefaultsLast(decl)
    ensures FirstNonDefaultAfterDefault(decl, decl.annotations.keys, 0, false).Some? ==>
      FirstLateRequiredIs(decl, decl.annotations.keys[FirstNonDefaultAfterDefault(decl, decl.annotations.keys, 0, false).value])
  {
    DefaultsTrail(decl, decl.annotations.keys);
  }

  lemma NameCheck(decl: ClassDecl)
    ensures FirstInvalidName(decl.annotations.keys, 0).None? <==> NamesValid(decl)
    ensures FirstInvalidName(decl.annotations.keys, 0).Some? ==>
      FirstInvalidIs(decl, decl.annotations.keys[FirstInvalidName(decl.annotations.keys, 0).value])
  {
    ByPosition(decl, decl.annotations.keys);
  }

  /** The checks `dataclass` makes before it builds the class, in the order it
      makes them: a mutable default (`_get_field`), then a field without
      default after one with a default (`_init_fn`), then a name the generated
      `__init__` cannot take. Each walks the fields in declaration order and
      names the first field that fails it. */
  function CheckDeclaration(decl: ClassDecl): (r: Option<DataclassError>)
    ensures r.None? <==> NoMutableDefault(decl) && DefaultsLast(decl) && NamesValid(decl)
    ensures r.Some? && r.value.MutableDefault? ==> FirstMutableIs(decl, r.value.field)
    ensures r.Some? && r.value.NonDefaultAfterDefault? ==>
      NoMutableDefault(decl) && FirstLateRequiredIs(decl, r.value.field)
    ensures r.Some? && r.value.InvalidFieldName? ==>
      NoMutableDefault(decl) && DefaultsLast(decl) && FirstInvalidIs(decl, r.value.field)
  {
    var keys := decl.annotations.keys;
    MutableCheck(decl);
    LateRequiredCheck(decl);
    NameCheck(decl);
    match FirstMutableDefault(decl, keys, 0)
    case Some(j) => Some(MutableDefault(keys[j]))
    case None =>
      match FirstNonDefaultAfterDefault(decl, keys, 0, false)
      case Some(j) => Some(NonDefaultAfterDefault(keys[j]))
      case None =>
        match FirstInvalidName(keys, 0)
        case Some(j) => Some(InvalidFieldName(keys[j]))
        case None => None
  }

  /** `_make_dataclass(_cls, order)` on the standard-library path: the class
      made a frozen dataclass with generated `__init__` and `__eq__`, one field
      per annotation, unless one of the checks of `CheckDeclaration` fails;
      then the first failing check names the first field that fails it. */
  function MakeDataclass(decl: ClassDecl, order: bool): (r: Result<CrystalType, DataclassError>)
    ensures r.Ok? <==> NoMutableDefault(decl) && DefaultsLast(decl) && NamesValid(decl)
    ensures r.Ok? ==> r.value.Valid() && r.value.FieldNames() == decl.annotations.keys
    ensures r.Ok? ==> r.value.id == decl.id && r.value.name == decl.name && r.value.order == order
    ensures r.Ok? ==> forall i :: 0 <= i < |r.value.fields| ==>
      r.value.fields[i].typ == decl.annotations.entries[r.value.fields[i].name] &&
      r.value.fields[i].default ==
        (if HasDefault(decl, r.value.fields[i].name) then Some(decl.namespace[r.value.fields[i].name]) else None)
    ensures r.Err? && r.error.MutableDefault? ==> FirstMutableIs(decl, r.error.field)
    ensures r.Err? && r.error.NonDefaultAfterDefault? ==>
      NoMutableDefault(decl) && FirstLateRequiredIs(decl, r.error.field)
    ensures r.Err? && r.error.InvalidFieldName? ==>
      NoMutableDefault(decl) && DefaultsLast(decl) && FirstInvalidIs(decl, r.error.field)
  {
    var keys := decl.annotations.keys;
    match CheckDeclaration(decl)
    case Some(e) => Err(e)
    case None =>
      var t := CrystalType(decl.id, decl.name, seq(|keys|, i requires 0 <= i < |keys| => DeclaredField(decl, keys[i])), order);
      assert t.FieldNames() == keys;
      Ok(t)
  }

  /** A required field declared after a defaulted one is refused: annotations
      `a` then `b`, with only `a` given a value. */
  lemma DefaultBeforeRequired()
    ensures MakeDataclass(ClassDecl(0, "A", Dict(["a", "b"], map["a" := IntType, "b" := IntType]), map["a" := IntVal(1)]), false)
      == Err(NonDefaultAfterDefault("b"))
  {
    var decl := ClassDecl(0, "A", Dict(["a", "b"], map["a" := IntType, "b" := IntType]), map["a" := IntVal(1)]);
    assert FirstMutableDefault(decl, ["a", "b"], 2) == None;
    assert HasDefault(decl, ["a", "b"][0]);
    assert FirstNonDefaultAfterDefault(decl, ["a", "b"], 1, true) == Some(1);
  }

  /** What `datacrystal` returns: called without a class, the decorator `wrap`
      that still waits for one; called with a class, what decorating it gives. */
  datatype Decoration =
    | Wrapper(wrap: ClassDecl -> Result<CrystalType, DataclassError>)
    | Made(made: Result<CrystalType, DataclassError>)

  /** `datacrystal(_cls=None, *, order=False)` */
  function DataCrystal(cls: Option<ClassDecl>, order: bool): (r: Decoration)
    ensures cls.None? <==> r.Wrapper?
    ensures cls.Some? ==> r == Made(MakeDataclass(cls.value, order))
    ensures r.Wrapper? ==> forall c :: r.wrap(c) == MakeDataclass(c, order)
  {
    var wrap := (c: ClassDecl) => MakeDataclass(c, order);
    if cls.None? then Wrapper(wrap) else Made(wrap(cls.value))
  }

  /** `@datacrystal(order=o)` applied to a class gives what `datacrystal(cls, order=o)` gives. */
  lemma PartialApplication(cls: ClassDecl, order: bool)
    ensures DataCrystal(None, order).wrap(cls) == DataCrystal(Some(cls), order).made
    ensures DataCrystal(Some(cls), order).made.Ok? ==> DataCrystal(Some(cls), order).made.value.FieldNames() == cls.annotations.keys
  {
  }

  // ---------------------------------------------------------------- construction

  /** Errors of the generated `__init__` (both `TypeError` in Python). */
  datatype InitError = UnexpectedKeyword(name: string) | MissingArguments(names: seq<string>)

  /** The position, from `from` on, of the first of `keys` that names no field
      of `ty`: the keyword at which argument binding stops. */
  function FirstUnexpected(ty: CrystalType, keys: seq<string>, from: nat): (r: Option<nat>)
    requires from <= |keys|
    ensures r.None? <==> forall j :: from <= j < |keys| ==> keys[j] in ty.FieldNames()
    ensures r.Some? ==> from <= r.value < |keys| && keys[r.value] !in ty.FieldNames()
    ensures r.Some? ==> forall j :: from <= j < r.value ==> keys[j] in ty.FieldNames()
    decreases |keys| - from
  {
    if from == |keys| then None
    else if keys[from] !in ty.FieldNames() then Some(from)
    else FirstUnexpected(ty, keys, from + 1)
  }

  /** The fields without a default that `given` does not supply, in declaration order. */
  function MissingRequired(fields: seq<Field>, given: map<string, Value>): (r: seq<string>)
    ensures r == [] <==> forall f :: f in fields ==> f.name in given || f.default.Some?
    ensures forall n :: n in r ==> n !in given && exists f :: f in fields && f.name == n && f.default.None?
    ensures forall f :: f in fields && f.name !in given && f.default.None? ==> f.name in r
    ensures Subsequence(r, Names(fields))
  {
    if fields == [] then []
    else
      var rest := MissingRequired(fields[1..], given);
      NamesTail(fields);
      if fields[0].name !in given && fields[0].default.None? then
        assert ([fields[0].name] + rest)[1..] == rest;
        [fields[0].name] + rest
      else rest
  }

  /** The value `__init__` stores for field `f`: the argument, or else the default. */
  function ValueFor(f: Field, given: map<string, Value>): Value
    requires f.name in given || f.default.Some?
  {
    if f.name in given then given[f.name] else f.default.value
  }

  /** The name-to-value map `__init__` fills in, one entry per field. */
  function FieldValues(fields: seq<Field>, given: map<string, Value>): (m: map<string, Value>)
    requires Distinct(Names(fields))
    requires forall i :: 0 <= i < |fields| ==> fields[i].name in given || fields[i].default.Some?
    ensures forall n :: n in m <==> n in Names(fields)
    ensures forall i :: 0 <= i < |fields| ==> m[fields[i].name] == ValueFor(fields[i], given)
  {
    if fields == [] then map[]
    else
      NamesTail(fields);
      var rest := FieldValues(fields[1..], given);
      rest[fields[0].name := ValueFor(fields[0], given)]
  }

  lemma NamesTail(fields: seq<Field>)
    requires |fields| > 0
    ensures Names(fields[1..]) == Names(fields)[1..]
    ensures Distinct(Names(fields)) ==> Distinct(Names(fields[1..])) && fields[0].name !in Names(fields[1..])
  {
    assert Names(fields[1..]) == Names(fields)[1..];
    DistinctTail(Names(fields));
  }

  /** The generated `__init__` called with keyword arguments, as in `_cls(**attr)`:
      an unknown keyword is refused first, then a missing required field;
      otherwise every field gets its argument or else its default. */
  function Construct(ty: CrystalType, kwargs: PyDict<Value>): (r: Result<Crystal, InitError>)
    requires ty.Valid()
    ensures r.Ok? <==>
      (forall k :: k in kwargs.entries ==> k in ty.FieldNames()) &&
      (forall f :: f in ty.fields ==> f.name in kwargs.entries || f.default.Some?)
    ensures r.Ok? ==> r.value.Valid() && r.value.ty == ty
    ensures r.Ok? ==> forall i :: 0 <= i < |ty.fields| ==>
      r.value.values[ty.fields[i].name] == ValueFor(ty.fields[i], kwargs.entries)
    ensures (exists k :: k in kwargs.entries && k !in ty.FieldNames()) ==> r.Err? && r.error.UnexpectedKeyword?
    ensures r.Err? && r.error.UnexpectedKeyword? ==>
      exists j :: 0 <= j < |kwargs.keys| && kwargs.keys[j] == r.error.name && r.error.name !in ty.FieldNames() &&
        forall i :: 0 <= i < j ==> kwargs.keys[i] in ty.FieldNames()
    ensures r.Err? && r.error.MissingArguments? ==>
      r.error.names != [] && forall n :: n in r.error.names ==> n in ty.FieldNames() && n !in kwargs.entries
    ensures r.Err? && r.error.MissingArguments? ==>
      (forall k :: k in kwargs.entries ==> k in ty.FieldNames()) &&
      r.error.names == MissingRequired(ty.fields, kwargs.entries)
  {
    match FirstUnexpected(ty, kwargs.keys, 0)
    case Some(j) => Err(UnexpectedKeyword(kwargs.keys[j]))
    case None =>
      var missing := MissingRequired(ty.fields, kwargs.entries);
      if missing != [] then Err(MissingArguments(missing))
      else
        Ok(Crystal(ty, FieldValues(ty.fields, kwargs.entries)))
  }

  /** `dataclasses.asdict(c)`: the field values keyed by name, in declaration
      order. Field values are taken as atomic: `asdict` would also turn a
      nested dataclass into a dict and copy lists, tuples and dicts
      recursively, which the model does not do. */
  function AsDict(c: Crystal): (r: PyDict<Value>)
    requires c.Valid()
    ensures |r.keys| == |c.ty.fields| && forall i :: 0 <= i < |c.ty.fields| ==> r.keys[i] == c.ty.fields[i].name
    ensures r.entries == c.values
  {
    Dict(c.ty.FieldNames(), c.values)
  }

  /** Rebuilding an instance from its own fields gives it back: what iterating
      a collection relies on. */
  lemma ConstructAsDict(c: Crystal)
    requires c.Valid()
    ensures Construct(c.ty, AsDict(c)) == Ok(c)
  {
    ConstructedValues(c);
    var r := Construct(c.ty, AsDict(c));
    assert r.value.values == c.values;
  }

  /** Rebuilding from `asdict` gives every field its own value back. */
  lemma ConstructedValues(c: Crystal)
    requires c.Valid()
    ensures Construct(c.ty, AsDict(c)).Ok?
    ensures forall n :: n in c.values ==>
      n in Construct(c.ty, AsDict(c)).value.values && Construct(c.ty, AsDict(c)).value.values[n] == c.values[n]
  {
    FieldsSupplied(c);
    var r := Construct(c.ty, AsDict(c));
    forall n | n in c.values ensures n in r.value.values && r.value.values[n] == c.values[n] {
      var i :| 0 <= i < |c.ty.fields| && c.ty.FieldNames()[i] == n;
      assert r.value.values[c.ty.fields[i].name] == ValueFor(c.ty.fields[i], c.values);
    }
  }

  /** Every field of a complete instance has a value, so its `asdict` supplies
      every field. */
  lemma FieldsSupplied(c: Crystal)
    requires c.Valid()
    ensures forall f :: f in c.ty.fields ==> f.name in c.values
    ensures Construct(c.ty, AsDict(c)).Ok?
  {
    forall f | f in c.ty.fields ensures f.name in c.values {
      var i :| 0 <= i < |c.ty.fields| && c.ty.fields[i] == f;
      assert c.ty.FieldNames()[i] == f.name;
    }
  }

  // ---------------------------------------------------------------- rendering

  /** One line of the rendering: the field name, a colon and a space, then
      the value as `str()` shows it. */
  function FieldLine(name: string, v: Value): string
  {
    name + ": " + Show(v)
  }

  /** The field lines of `c`, in declaration order. */
  function FieldLines(c: Crystal): (r: seq<string>)
    requires c.Valid()
    ensures |r| == |c.ty.fields|
    ensures forall i :: 0 <= i < |r| ==>
      c.ty.fields[i].name in c.values && r[i] == FieldLine(c.ty.fields[i].name, c.values[c.ty.fields[i].name])
  {
    assert forall i :: 0 <= i < |c.ty.fields| ==> c.ty.FieldNames()[i] in c.ty.FieldNames();
    seq(|c.ty.fields|, i requires 0 <= i < |c.ty.fields| =>
      FieldLine(c.ty.fields[i].name, c.values[c.ty.fields[i].name]))
  }

  /** What `str()` of an instance is: the type name, a rule of `-` as long,
      then one `name: value` line per field, joined by line breaks. */
  function Rendering(c: Crystal): string
    requires c.Valid()
  {
    Join("\n", Banner(c.ty.name) + FieldLines(c))
  }

  /** `_str`, the `__str__` installed on every crystal type. */
  method Str(c: Crystal) returns (s: string)
    requires c.Valid()
    ensures s == Rendering(c)
  {
    var typename := c.ty.name;
    var lines := [typename, Repeat('-', |typename|)];
    for i := 0 to |c.ty.fields|
      invariant lines == Banner(typename) + FieldLines(c)[..i]
    {
      var f := c.ty.fields[i];
      lines := lines + [f.name + ": " + Show(c.values[f.name])];
      assert FieldLines(c)[..i + 1] == FieldLines(c)[..i] + [FieldLines(c)[i]];
    }
    assert FieldLines(c)[..|c.ty.fields|] == FieldLines(c);
    s := Join("\n", lines);
  }

  /** The rendering opens with the type name, a line break and the rule. */
  lemma RenderingStartsWithBanner(c: Crystal)
    requires c.Valid()
    ensures c.ty.name + "\n" + Repeat('-', |c.ty.name|) <= Rendering(c)
  {
    BannerPrefix(c.ty.name, FieldLines(c));
  }

  /** When no name or shown value holds a line break, the lines of the
      rendering are exactly the type name, the rule and the field lines. */
  lemma RenderingLines(c: Crystal)
    requires c.Valid()
    requires '\n' !in c.ty.name && NoneContains(FieldLines(c), '\n')
    ensures Split(Rendering(c), '\n') == Banner(c.ty.name) + FieldLines(c)
  {
    var lines := Banner(c.ty.name) + FieldLines(c);
    assert NoneContains(lines, '\n') by {
      forall i | 0 <= i < |lines| ensures '\n' !in lines[i] {
        if i >= 2 {
          assert lines[i] == FieldLines(c)[i - 2];
        }
      }
    }
    SplitJoin(lines, '\n');
  }

  /** The rendering shows the type name and every `name: value` pair. */
  lemma RenderingMentions(c: Crystal)
    requires c.Valid()
    ensures IsInfix(c.ty.name, Rendering(c))
    ensures forall f :: f in c.ty.fields ==>
      f.name in c.values && IsInfix(FieldLine(f.name, c.values[f.name]), Rendering(c))
  {
    var lines := Banner(c.ty.name) + FieldLines(c);
    JoinHasPart("\n", lines, 0);
    forall f | f in c.ty.fields
      ensures f.name in c.values && IsInfix(FieldLine(f.name, c.values[f.name]), Rendering(c))
    {
      var i :| 0 <= i < |c.ty.fields| && c.ty.fields[i] == f;
      assert lines[i + 2] == FieldLines(c)[i];
      JoinHasPart("\n", lines, i + 2);
    }
  }

  // ---------------------------------------------------------------- introspection

  /** `_dir`, the `__dir__` installed on every crystal type: only the fields. */
  function Dir(c: Crystal): (r: seq<string>)
    requires c.Valid()
    ensures Distinct(r) && |r| == |c.ty.fields|
    ensures forall n :: n in r <==> n in c.values
  {
    c.ty.FieldNames()
  }

  /** On a decorated class, `__dir__` lists the annotations, no more, no fewer,
      in declaration order (the builtin `dir()` then sorts them). */
  lemma DirIsDeclaration(decl: ClassDecl, order: bool, c: Crystal)
    requires c.Valid() && MakeDataclass(decl, order) == Ok(c.ty)
    ensures Dir(c) == decl.annotations.keys
  {
  }

  // ---------------------------------------------------------------- equality

  /** The field values in declaration order: the tuple the generated `__eq__` compares. */
  function AsTuple(c: Crystal): (r: seq<Value>)
    requires c.Valid()
    ensures |r| == |c.ty.fields|
  {
    assert forall i :: 0 <= i < |c.ty.fields| ==> c.ty.FieldNames()[i] in c.ty.FieldNames();
    seq(|c.ty.fields|, i requires 0 <= i < |c.ty.fields| => c.values[c.ty.fields[i].name])
  }

  /** Two instances of one type have the same field tuple exactly when they
      hold the same field values. */
  lemma TupleIsValues(a: Crystal, b: Crystal)
    requires a.Valid() && b.Valid() && a.ty == b.ty
    ensures AsTuple(a) == AsTuple(b) <==> a.values == b.values
  {
    if AsTuple(a) == AsTuple(b) {
      forall n | n in a.values ensures n in b.values && a.values[n] == b.values[n] {
        var i :| 0 <= i < |a.ty.fields| && a.ty.FieldNames()[i] == n;
        assert AsTuple(a)[i] == AsTuple(b)[i];
      }
      assert a.values == b.values;
    }
  }

  /** The generated `__eq__` (`eq=True`): for the same class (`is`) the field
      tuples are compared; for another class Python falls back to identity,
      which instances of two classes never share. So instances are equal
      exactly when they have the same type and the same field values. */
  function Eq(a: Crystal, b: Crystal): (r: bool)
    requires a.Valid() && b.Valid()
    ensures r <==> a.ty == b.ty && a.values == b.values
  {
    if a.ty == b.ty then
      TupleIsValues(a, b);
      AsTuple(a) == AsTuple(b)
    else false
  }

  /** Equality of instances is an equivalence. */
  lemma EqIsEquivalence(a: Crystal, b: Crystal, c: Crystal)
    requires a.Valid() && b.Valid() && c.Valid()
    ensures Eq(a, a)
    ensures Eq(a, b) ==> Eq(b, a)
    ensures Eq(a, b) && Eq(b, c) ==> Eq(a, c)
  {
  }

  /** A type without fields has one instance up to equality. */
  lemma ZeroFieldsAllEqual(a: Crystal, b: Crystal)
    requires a.Valid() && b.Valid() && a.ty == b.ty && a.ty.fields == []
    ensures Eq(a, b)
  {
    assert AsTuple(a) == [] && AsTuple(b) == [];
  }

  // ---------------------------------------------------------------- frozenness

  /** `dataclasses.FrozenInstanceError` */
  datatype FrozenInstanceError = CannotAssign(field: string) | CannotDelete(field: string)

  /** `setattr` on an instance (`frozen=True`): always refused. */
  function SetField(c: Crystal, name: string, v: Value): (r: Result<Crystal, FrozenInstanceError>)
    ensures !r.Ok?
    ensures r.Err? ==> r.error == CannotAssign(name)
  {
    Err(CannotAssign(name))
  }

  /** `delattr` on an instance (`frozen=True`): always refused. */
  function DelField(c: Crystal, name: string): (r: Result<Crystal, FrozenInstanceError>)
    ensures !r.Ok?
    ensures r.Err? ==> r.error == CannotDelete(name)
  {
    Err(CannotDelete(name))
  }
}
