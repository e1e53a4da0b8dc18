/** The structural metaclass `CrystalMeta`: how it rewrites a class namespace
    on creation, its `repr`, its attribute-wise equality and its refusal of
    attribute assignment. */
module Meta {
  import opened Results
  import opened Values
  import opened Strings
  import opened OrderedDicts

  /** The name starts with two underscores: Python's special names, which
      `__new__` never annotates. */
  predicate IsDunder(a: string)
  {
    |a| >= 2 && a[0] == '_' && a[1] == '_'
  }

  /** The two attributes `__new__` drops and `__eq__` ignores: `type` makes
      them afresh for every class. */
  const Doomed: set<string> := {"__dict__", "__weakref__"}

  /** The metaclass of a class object, which `__eq__` compares with `is`. */
  datatype Metaclass = CrystalMetaclass | OtherMetaclass(name: string)

  /** An entry of `vars(cls)`: a plain value, the `__annotations__` dict (seen as
      a dict, so without order), or one of the `__dict__`/`__weakref__`
      descriptors that belong to the class with identity `owner`. */
  datatype Attribute = Data(v: Value) | AnnotationMap(m: map<string, TypeTag>) | SlotDescriptor(owner: nat, slot: string)

  /** A class object: its metaclass, its identity, `__name__`, `__qualname__`,
      the bases handed to `type.__new__`, the values of its namespace and its
      `__annotations__`. */
  datatype PyClass = PyClass(meta: Metaclass, id: nat, name: string, qualname: string, bases: seq<string>,
                             data: map<string, Value>, annotations: PyDict<TypeTag>)

  /** `vars(cls)` */
  function VarsOf(cls: PyClass): (r: map<string, Attribute>)
    ensures forall k :: k in r <==> k in cls.data || k in Doomed || k == "__annotations__"
    ensures "__annotations__" in r && r["__annotations__"] == AnnotationMap(cls.annotations.entries)
    ensures forall k :: k in Doomed ==> k in r && r[k] == SlotDescriptor(cls.id, k)
    ensures forall k :: k in cls.data && k !in Doomed && k != "__annotations__" ==> r[k] == Data(cls.data[k])
  {
    (map k | k in cls.data :: Data(cls.data[k]))
      ["__annotations__" := AnnotationMap(cls.annotations.entries)]
      ["__dict__" := SlotDescriptor(cls.id, "__dict__")]
      ["__weakref__" := SlotDescriptor(cls.id, "__weakref__")]
  }

  /** Errors raised by class creation and by `__setattr__` (`TypeError` in Python). */
  datatype TypeError = QualnameNotAString | ImmutableClass

  // ---------------------------------------------------------------- __new__

  /** The namespace `attrs` that `__new__` receives and rewrites in place. Its
      `__annotations__` entry is held apart, as a dict of types, and is `None`
      when the class body declared no annotation. */
  class Namespace {
    var attrs: PyDict<Value>
    var annotations: Option<PyDict<TypeTag>>

    ghost predicate Valid()
      reads this
    {
      "__annotations__" !in attrs.entries
    }

    constructor (attrs: PyDict<Value>, annotations: Option<PyDict<TypeTag>>)
      requires "__annotations__" !in attrs.entries
      ensures Valid() && this.attrs == attrs && this.annotations == annotations
    {
      this.attrs := attrs;
      this.annotations := annotations;
    }
  }

  /** The namespace without `__dict__` and `__weakref__`; the rest in its order. */
  function Cleaned(attrs: PyDict<Value>): (r: PyDict<Value>)
    ensures r.entries == attrs.entries - Doomed
    ensures forall k :: k in r.keys <==> k in attrs.keys && k !in Doomed
    ensures Subsequence(r.keys, attrs.keys)
  {
    var once := Pop(attrs, "__dict__");
    SubsequenceTransitive(Pop(once, "__weakref__").keys, once.keys, attrs.keys);
    Pop(once, "__weakref__")
  }

  /** The annotation dict after the loop of `__new__` has visited `keys`, in
      order, starting from `base`: each public name not yet annotated gets the
      type of its value, appended at the end. */
  function AnnotateAll(base: PyDict<TypeTag>, attrs: PyDict<Value>, keys: seq<string>): (r: PyDict<TypeTag>)
    requires forall k :: k in keys ==> k in attrs.entries
    // the annotations already there keep their place, in front, and their value
    ensures base.keys <= r.keys
    ensures forall k :: k in base.entries ==> k in r.entries && r.entries[k] == base.entries[k]
    // every public name visited is annotated
    ensures forall k :: k in keys && !IsDunder(k) ==> k in r.entries
    // every new annotation is the type of a visited public attribute
    ensures forall k :: k in r.entries && k !in base.entries ==>
      k in keys && !IsDunder(k) && r.entries[k] == TypeOf(attrs.entries[k])
    decreases |keys|
  {
    if keys == [] then base
    else
      var d := AnnotateAll(base, attrs, keys[..|keys| - 1]);
      var a := keys[|keys| - 1];
      if !IsDunder(a) && a !in d.entries then Put(d, a, TypeOf(attrs.entries[a])) else d
  }

  /** One more visited key: one iteration of the loop of `__new__`. */
  lemma AnnotateStep(base: PyDict<TypeTag>, attrs: PyDict<Value>, keys: seq<string>, i: nat)
    requires i < |keys| && forall k :: k in keys ==> k in attrs.entries
    ensures var d := AnnotateAll(base, attrs, keys[..i]);
      AnnotateAll(base, attrs, keys[..i + 1]) ==
        if !IsDunder(keys[i]) && keys[i] !in d.entries then Put(d, keys[i], TypeOf(attrs.entries[keys[i]])) else d
  {
    assert keys[..i + 1][..i] == keys[..i];
  }

  /** The annotations `__new__` leaves: the given ones (or an empty dict), then,
      in namespace order, `type(value)` for every public attribute that has
      none. */
  function Annotated(attrs: PyDict<Value>, given: Option<PyDict<TypeTag>>): (r: PyDict<TypeTag>)
    // no given annotation is changed, and they keep their order in front
    ensures given.Some? ==> given.value.keys <= r.keys
    ensures given.Some? ==> forall k :: k in given.value.entries ==> k in r.entries && r.entries[k] == given.value.entries[k]
    // every public attribute is annotated
    ensures forall k :: k in attrs.entries && !IsDunder(k) ==> k in r.entries
    // an annotation that was not given is inferred from a public attribute's value
    ensures forall k :: k in r.entries && (given.None? || k !in given.value.entries) ==>
      k in attrs.entries && !IsDunder(k) && r.entries[k] == TypeOf(attrs.entries[k])
  {
    AnnotateAll(if given.Some? then given.value else Empty(), attrs, attrs.keys)
  }

  /** `type.__new__(mcls, typename, (), attrs)`, as far as the class object
      shows it: `__qualname__` leaves the namespace (and must be a string),
      `__module__` defaults to the calling module and `__doc__` to None. The
      bases are always empty. */
  function TypeNew(meta: Metaclass, typename: string, attrs: PyDict<Value>, annotations: PyDict<TypeTag>,
                   callerModule: string, id: nat): (r: Result<PyClass, TypeError>)
    ensures r.Err? <==> "__qualname__" in attrs.entries && !attrs.entries["__qualname__"].StrVal?
    ensures r.Ok? ==> r.value.bases == [] && r.value.meta == meta && r.value.id == id && r.value.name == typename
    ensures r.Ok? ==> "__module__" in r.value.data && "__doc__" in r.value.data && "__qualname__" !in r.value.data
    ensures r.Ok? ==> forall k :: k in attrs.entries && k != "__qualname__" ==>
      k in r.value.data && r.value.data[k] == attrs.entries[k]
    ensures r.Ok? ==> forall k :: k in r.value.data ==> k in attrs.entries || k == "__module__" || k == "__doc__"
    ensures r.Ok? ==> r.value.annotations == annotations
  {
    if "__qualname__" in attrs.entries && !attrs.entries["__qualname__"].StrVal? then Err(QualnameNotAString)
    else
      var qualname := if "__qualname__" in attrs.entries then attrs.entries["__qualname__"].s else typename;
      var d0 := attrs.entries - {"__qualname__"};
      var d1 := if "__module__" in d0 then d0 else d0["__module__" := StrVal(callerModule)];
      var d2 := if "__doc__" in d1 then d1 else d1["__doc__" := NoneVal];
      Ok(PyClass(meta, id, typename, qualname, [], d2, annotations))
  }

  /** `CrystalMeta.__new__(mcls, typename, bases, attrs)`: pops `__dict__` and
      `__weakref__` from `attrs`, adds an empty `__annotations__` when there is
      none, annotates every public attribute that lacks an annotation with the
      type of its value, then builds the class with no bases. `callerModule`
      and `id` stand for the module `type` takes `__module__` from and for the
      new class's identity. */
  method New(typename: string, bases: seq<string>, ns: Namespace, callerModule: string, id: nat)
    returns (r: Result<PyClass, TypeError>)
    requires ns.Valid()
    modifies ns
    ensures ns.Valid()
    ensures ns.attrs == Cleaned(old(ns.attrs))
    ensures ns.annotations == Some(Annotated(ns.attrs, old(ns.annotations)))
    ensures r == TypeNew(CrystalMetaclass, typename, ns.attrs, ns.annotations.value, callerModule, id)
  {
    ns.attrs := Pop(ns.attrs, "__dict__");
    ns.attrs := Pop(ns.attrs, "__weakref__");
    if ns.annotations.None? {
      ns.annotations := Some(Empty());
    }
    AnnotateAttributes(ns);
    r := TypeNew(CrystalMetaclass, typename, ns.attrs, ns.annotations.value, callerModule, id);
  }

  /** The loop of `__new__` over the namespace keys: each public attribute not
      yet annotated is annotated with the type of its value. */
  method AnnotateAttributes(ns: Namespace)
    requires ns.annotations.Some?
    modifies ns
    ensures ns.attrs == old(ns.attrs)
    ensures ns.annotations == Some(AnnotateAll(old(ns.annotations.value), ns.attrs, ns.attrs.keys))
  {
    ghost var base := ns.annotations.value;
    var keys := ns.attrs.keys;
    var i := 0;
    while i < |keys|
      invariant 0 <= i <= |keys|
      invariant ns.attrs == old(ns.attrs) && keys == ns.attrs.keys
      invariant ns.annotations == Some(AnnotateAll(base, ns.attrs, keys[..i]))
    {
      var a := keys[i];
      var ann := ns.annotations.value;
      AnnotateStep(base, ns.attrs, keys, i);
      if !IsDunder(a) && a !in ann.entries {
        ns.annotations := Some(Put(ann, a, TypeOf(ns.attrs.entries[a])));
      }
      i := i + 1;
    }
    assert keys[..|keys|] == keys;
  }

  /** The public entries of `vars(cls)` are those of the class namespace. */
  lemma PublicVarsAreData(cls: PyClass)
    ensures forall f :: f in VarsOf(cls) && !IsDunder(f) ==> f in cls.data
  {
    forall f | f in VarsOf(cls) && !IsDunder(f) ensures f in cls.data {
      assert f !in Doomed && f != "__annotations__";
    }
  }

  /** In a class `__new__` builds, every public entry of `vars(cls)` has an
      annotation. */
  lemma EveryPublicAttributeAnnotated(typename: string, attrs: PyDict<Value>, given: Option<PyDict<TypeTag>>,
                                      callerModule: string, id: nat)
    ensures var r := TypeNew(CrystalMetaclass, typename, Cleaned(attrs), Annotated(Cleaned(attrs), given), callerModule, id);
      r.Ok? ==> forall f :: f in VarsOf(r.value) && !IsDunder(f) ==> f in r.value.annotations.entries
  {
    var clean := Cleaned(attrs);
    var r := TypeNew(CrystalMetaclass, typename, clean, Annotated(clean, given), callerModule, id);
    if r.Ok? {
      PublicVarsAreData(r.value);
      assert forall f :: f in r.value.data && !IsDunder(f) ==> f in clean.entries;
    }
  }

  // ---------------------------------------------------------------- __repr__

  /** `cls.__module__` as it is shown. */
  function ModuleOf(cls: PyClass): string
    requires "__module__" in cls.data
  {
    Show(cls.data["__module__"])
  }

  /** The annotation items the repr lists: each annotated name, a colon and a
      space, then the name of its type, in annotation order. */
  function AnnotationItems(ann: PyDict<TypeTag>): (r: seq<string>)
    ensures |r| == |ann.keys|
    ensures forall i :: 0 <= i < |r| ==> r[i] == ann.keys[i] + ": " + TypeName(ann.entries[ann.keys[i]])
  {
    seq(|ann.keys|, i requires 0 <= i < |ann.keys| => ann.keys[i] + ": " + TypeName(ann.entries[ann.keys[i]]))
  }

  /** `CrystalMeta.__repr__`: the usual `<class 'module.qualname'>`, with the
      annotations spliced in before the closing `'>` when there are any. */
  function Repr(cls: PyClass): (r: string)
    requires "__module__" in cls.data
    ensures "<class '" + ModuleOf(cls) + "." + cls.qualname <= r
    ensures r[|r| - 2..] == "'>"
  {
    var baseRepr := "<class '" + ModuleOf(cls) + "." + cls.qualname + "'>";
    var attrStr := Join(", ", AnnotationItems(cls.annotations));
    if attrStr != "" then baseRepr[..|baseRepr| - 2] + "[" + attrStr + "]'>" else baseRepr
  }

  /** Without annotations the repr is `<class 'module.qualname'>`; with them it
      is `<class 'module.qualname[a: t, b: u]'>`, the annotations in order. */
  lemma ReprForm(cls: PyClass)
    requires "__module__" in cls.data
    ensures cls.annotations.keys == [] ==>
      Repr(cls) == "<class '" + ModuleOf(cls) + "." + cls.qualname + "'>"
    ensures cls.annotations.keys != [] ==>
      Repr(cls) == "<class '" + ModuleOf(cls) + "." + cls.qualname + "[" + Join(", ", AnnotationItems(cls.annotations)) + "]'>"
  {
    var items := AnnotationItems(cls.annotations);
    var prefix := "<class '" + ModuleOf(cls) + "." + cls.qualname;
    var baseRepr := prefix + "'>";
    assert "<class '" + ModuleOf(cls) + "." + cls.qualname + "'>" == baseRepr;
    if cls.annotations.keys != [] {
      assert items[0] != "" by {
        assert |items[0]| >= 2;
      }
      JoinNonEmpty(", ", items, 0);
      assert baseRepr[..|baseRepr| - 2] == prefix;
    }
  }

  /** The text after `<class 'module.qualname` in the repr. */
  function ReprTail(cls: PyClass): string
  {
    if cls.annotations.keys == [] then "'>" else "[" + Join(", ", AnnotationItems(cls.annotations)) + "]'>"
  }

  /** The repr is the fixed prefix followed by `ReprTail`. The two ensures say
      the same thing grouped two ways; the first one is there so that the
      solver can match the module as a part of the whole string. */
  lemma ReprSplit(cls: PyClass)
    requires "__module__" in cls.data
    ensures Repr(cls) == "<class '" + ModuleOf(cls) + ("." + cls.qualname + ReprTail(cls))
    ensures Repr(cls) == "<class '" + ModuleOf(cls) + "." + cls.qualname + ReprTail(cls)
  {
    ReprForm(cls);
  }

  /** The repr shows the module, the qualified name and every `name: type`
      annotation. */
  lemma ReprMentions(cls: PyClass)
    requires "__module__" in cls.data
    ensures IsInfix(ModuleOf(cls), Repr(cls))
    ensures IsInfix(cls.qualname, Repr(cls))
    ensures forall k :: k in cls.annotations.entries ==>
      IsInfix(k + ": " + TypeName(cls.annotations.entries[k]), Repr(cls))
  {
    ReprSplit(cls);
    var m := ModuleOf(cls);
    var q := cls.qualname;
    InfixSelf(m);
    InfixInConcat(m, "<class '", m);
    InfixInConcat(m, "<class '" + m, "." + q + ReprTail(cls));
    InfixSelf(q);
    InfixInConcat(q, "<class '" + m + ".", q);
    InfixInConcat(q, "<class '" + m + "." + q, ReprTail(cls));
    forall k | k in cls.annotations.entries
      ensures IsInfix(k + ": " + TypeName(cls.annotations.entries[k]), Repr(cls))
    {
      var i :| 0 <= i < |cls.annotations.keys| && cls.annotations.keys[i] == k;
      TailMentions(cls, i);
      InfixInConcat(AnnotationItems(cls.annotations)[i], "<class '" + m + "." + q, ReprTail(cls));
    }
  }

  lemma TailMentions(cls: PyClass, i: nat)
    requires i < |cls.annotations.keys|
    ensures IsInfix(AnnotationItems(cls.annotations)[i], ReprTail(cls))
  {
    var items := AnnotationItems(cls.annotations);
    var inner := Join(", ", items);
    JoinHasPart(", ", items, i);
    InfixInConcat(items[i], "[", inner);
    InfixInConcat(items[i], "[" + inner, "]'>");
  }

  // ---------------------------------------------------------------- __eq__

  /** The class attributes without the `__dict__` and `__weakref__` descriptors. */
  function WithoutDoomed(vars: map<string, Attribute>): (r: map<string, Attribute>)
    ensures forall k :: k in r <==> k in vars && k !in Doomed
    ensures forall k :: k in r ==> r[k] == vars[k]
  {
    map k | k in vars && k !in Doomed :: vars[k]
  }

  /** `CrystalMeta.__eq__`: the same metaclass, and the same attributes once
      `__dict__` and `__weakref__` are left out. */
  function Eq(cls: PyClass, other: PyClass): (r: bool)
    ensures r ==> cls.meta == other.meta
    ensures r ==> cls.annotations.entries == other.annotations.entries
  {
    var mine := WithoutDoomed(VarsOf(cls));
    var theirs := WithoutDoomed(VarsOf(other));
    assert mine == theirs ==> mine["__annotations__"] == theirs["__annotations__"];
    cls.meta == other.meta && mine == theirs
  }

  lemma EqIsEquivalence(a: PyClass, b: PyClass, c: PyClass)
    ensures Eq(a, a)
    ensures Eq(a, b) ==> Eq(b, a)
    ensures Eq(a, b) && Eq(b, c) ==> Eq(a, c)
  {
  }

  /** For classes whose namespace holds neither `__annotations__` nor a doomed
      key, as every class `__new__` builds, equality is: same metaclass, same
      namespace values and the same annotations, whatever their order. */
  lemma EqIsAttributeEquality(a: PyClass, b: PyClass)
    requires "__annotations__" !in a.data && (forall k :: k in Doomed ==> k !in a.data)
    requires "__annotations__" !in b.data && (forall k :: k in Doomed ==> k !in b.data)
    ensures Eq(a, b) <==> a.meta == b.meta && a.data == b.data && a.annotations.entries == b.annotations.entries
  {
    var va := WithoutDoomed(VarsOf(a));
    var vb := WithoutDoomed(VarsOf(b));
    if a.meta == b.meta && va == vb {
      assert va["__annotations__"] == vb["__annotations__"];
      forall k | k in a.data ensures k in b.data && a.data[k] == b.data[k] {
        assert va[k] == Data(a.data[k]);
        assert k in vb;
      }
      forall k | k in b.data ensures k in a.data {
        assert k in vb;
      }
      assert a.data == b.data;
    }
    if a.data == b.data && a.annotations.entries == b.annotations.entries {
      assert va == vb;
    }
  }

  /** Two classes built from the same namespace are equal whatever their names
      and identities: neither appears among the compared attributes. */
  lemma EqIgnoresNameAndIdentity(attrs: PyDict<Value>, ann: PyDict<TypeTag>, callerModule: string,
                                 name1: string, id1: nat, name2: string, id2: nat)
    requires TypeNew(CrystalMetaclass, name1, attrs, ann, callerModule, id1).Ok?
    ensures TypeNew(CrystalMetaclass, name2, attrs, ann, callerModule, id2).Ok?
    ensures Eq(TypeNew(CrystalMetaclass, name1, attrs, ann, callerModule, id1).value,
               TypeNew(CrystalMetaclass, name2, attrs, ann, callerModule, id2).value)
  {
    var c1 := TypeNew(CrystalMetaclass, name1, attrs, ann, callerModule, id1).value;
    var c2 := TypeNew(CrystalMetaclass, name2, attrs, ann, callerModule, id2).value;
    assert c1.data == c2.data;
    assert WithoutDoomed(VarsOf(c1)) == WithoutDoomed(VarsOf(c2));
  }

  // ---------------------------------------------------------------- __setattr__

  /** `CrystalMeta.__setattr__`: assigning any attribute of a class raises,
      so the class stays as it was. */
  function SetAttr(cls: PyClass, key: string, value: Value): (r: Result<PyClass, TypeError>)
    ensures !r.Ok?
    ensures r.Err? ==> r.error == ImmutableClass
  {
    Err(ImmutableClass)
  }
}
