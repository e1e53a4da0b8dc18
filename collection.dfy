/** Collections: for one crystal type `Inner`, an append-only table of its
    instances, one row per instance in insertion order, that is iterated by
    rebuilding instances from the rows. */
module Collections {
  import opened Results
  import opened Values
  import opened Strings
  import opened OrderedDicts
  import opened Crystals

  /** A table row: the value of each column, by column name. */
  type Row = map<string, Value>

  /** The tabular store (a pandas DataFrame): named columns and the rows in
      index order. */
  class Frame {
    var columns: seq<string>
    var rows: seq<Row>

    constructor (columns: seq<string>, rows: seq<Row>)
      ensures this.columns == columns && this.rows == rows
    {
      this.columns := columns;
      this.rows := rows;
    }

    /** `df.copy(deep=True)`: a separate frame holding the same columns and rows. */
    method Copy() returns (c: Frame)
      ensures fresh(c)
      ensures c.columns == columns && c.rows == rows
    {
      c := new Frame(columns, rows);
    }
  }

  /** The names the collection exposes besides Inner's fields. */
  const Exposed: seq<string> := ["strategy", "Inner", "optimize"]

  /** Names that `itertuples` keeps as they are. The namedtuple it builds
      (`rename=True`) renames reserved words, names that are not identifiers,
      names starting with `_` and repeated names, so also a field called
      `Index`, which the index column already uses. The program does not
      guard against this: iterating a non-empty collection whose Inner has a
      field starting with `_` or named `Index` passes the renamed keyword
      (such as `_1`) to Inner's `__init__`, which raises `TypeError`. The
      model requires every field name to be safe, so that failure is not
      modelled. */
  predicate TupleSafe(name: string)
  {
    IsIdentifier(name) && name != "Index" && name[0] != '_'
  }

  /** The rows of some instances: the `asdict` of each, in the given order. */
  function RowsOf(inners: seq<Crystal>): (r: seq<Row>)
    ensures |r| == |inners|
    ensures forall i :: 0 <= i < |inners| ==> r[i] == inners[i].values
  {
    seq(|inners|, i requires 0 <= i < |inners| => inners[i].values)
  }

  /** One tuple of `itertuples(index=True)` as `_asdict()` gives it: the row's
      position under `Index`, then the columns. */
  function RowTuple(index: nat, columns: seq<string>, row: Row): (r: Dict<Value>)
    ensures |r.keys| == |columns| + 1 && r.keys[0] == "Index" && r.keys[1..] == columns
    ensures "Index" in r.entries && r.entries["Index"] == IntVal(index)
    ensures forall n :: n in row && n != "Index" ==> n in r.entries && r.entries[n] == row[n]
  {
    Dict(["Index"] + columns, row["Index" := IntVal(index)])
  }

  /** The keyword arguments `iter` rebuilds an instance from: the tuple's
      entries, in order, except the one under `Index`. */
  function DropIndex(t: Dict<Value>): (r: Dict<Value>)
    ensures "Index" !in r.entries && forall n :: n in r.keys <==> n in t.keys && n != "Index"
    ensures forall n :: n != "Index" && n in t.entries ==> n in r.entries && r.entries[n] == t.entries[n]
    ensures forall n :: n in r.entries ==> n in t.entries
    ensures Subsequence(r.keys, t.keys)
  {
    Dict(Without(t.keys, "Index"), t.entries - {"Index"})
  }

  /** The row at `index` of an instance of Inner, turned into a tuple and back
      into keyword arguments, is the instance's own `asdict`. */
  lemma TupleRoundTrip(index: nat, e: Crystal)
    requires e.Valid()
    requires forall n :: n in e.ty.FieldNames() ==> TupleSafe(n)
    ensures DropIndex(RowTuple(index, e.ty.FieldNames(), e.values)) == AsDict(e)
  {
    var cols := e.ty.FieldNames();
    assert "Index" !in cols;
    assert Without(["Index"] + cols, "Index") == cols by {
      assert (["Index"] + cols)[1..] == cols;
    }
    assert e.values["Index" := IntVal(index)] - {"Index"} == e.values;
  }

  /** Rebuilding the row of an instance through its tuple gives the instance back. */
  lemma Rebuild(index: nat, e: Crystal)
    requires e.Valid()
    requires forall n :: n in e.ty.FieldNames() ==> TupleSafe(n)
    ensures DropIndex(RowTuple(index, e.ty.FieldNames(), e.values)).Valid()
    ensures Construct(e.ty, DropIndex(RowTuple(index, e.ty.FieldNames(), e.values))) == Ok(e)
  {
    TupleRoundTrip(index, e);
    ConstructAsDict(e);
  }

  /** A collection instance. `inner` is `self.Inner`, `df` is `self._df`;
      `elements` is the sequence of instances appended so far, the abstract view. */
  class Collection {
    const inner: CrystalType
    var df: Frame
    ghost var elements: seq<Crystal>

    /** The columns are Inner's fields, and row i holds the fields of the i-th
        appended instance. */
    ghost predicate Valid()
      reads this, df
    {
      inner.Valid() &&
      (forall n :: n in inner.FieldNames() ==> TupleSafe(n)) &&
      df.columns == inner.FieldNames() &&
      |df.rows| == |elements| &&
      forall i :: 0 <= i < |elements| ==>
        elements[i].ty == inner && elements[i].Valid() && df.rows[i] == elements[i].values
    }

    /** `init(self, *inners)`: a table with one row per given instance, in order,
        and a column per field of Inner, even when there are no rows. */
    constructor (inner: CrystalType, inners: seq<Crystal>)
      requires inner.Valid() && forall n :: n in inner.FieldNames() ==> TupleSafe(n)
      requires forall i :: 0 <= i < |inners| ==> inners[i].ty == inner && inners[i].Valid()
      ensures Valid() && fresh(df)
      ensures this.inner == inner && elements == inners
    {
      this.inner := inner;
      df := new Frame(inner.FieldNames(), RowsOf(inners));
      elements := inners;
    }

    /** `type(self).__name__`: the collection class is named after Inner. */
    function TypeName(): (r: string)
      ensures |r| == |inner.name| + 10
      ensures r[..|inner.name|] == inner.name && r[|inner.name|..] == "Collection"
    {
      inner.name + "Collection"
    }

    /** `llen`, the `__len__`: the number of instances appended. */
    function Len(): (n: nat)
      reads this, df
      requires Valid()
      ensures n == |elements|
    {
      |df.rows|
    }

    /** Row `row` holds exactly the field values of `item`. */
    predicate RowMatches(row: Row, item: Crystal)
      requires item.Valid()
    {
      forall n :: n in item.values ==> n in row && row[n] == item.values[n]
    }

    /** `contains`, the `__contains__`: false on an empty table, otherwise true
        when some row agrees with `item` on every field. As written, the source
        looks attributes up by `Field` object rather than by name, which raises;
        looked up by name, it would compare whole columns with a value, and
        `all` over those column comparisons would raise again. The rule here,
        some row agreeing on every field, is the one the membership test
        (`datacrystals/tests/test_collection.py:77-88`) and the
        `abc.Collection` interface the class claims to implement call for:
        `in` agrees with iteration. It is not a repair of that expression. */
    function Contains(item: Crystal): (b: bool)
      reads this, df
      requires Valid() && item.ty == inner && item.Valid()
      ensures b <==> item in elements
    {
      if |df.rows| > 0 then
        var found := exists i :: 0 <= i < |df.rows| && RowMatches(df.rows[i], item);
        assert found ==> item in elements by {
          if found {
            var i :| 0 <= i < |df.rows| && RowMatches(df.rows[i], item);
            assert elements[i].values == item.values;
          }
        }
        assert item in elements ==> found by {
          if item in elements {
            var i :| 0 <= i < |elements| && elements[i] == item;
            assert RowMatches(df.rows[i], item);
          }
        }
        found
      else
        false
    }

    /** One step of `iter`: the instance `_cls(**attr)` rebuilt from the tuple
        of row `i` with its `Index` entry dropped. */
    method RebuildRow(i: nat) returns (x: Crystal)
      requires Valid() && i < |df.rows|
      ensures x == elements[i]
    {
      ghost var e := elements[i];
      assert df.rows[i] == e.values && df.columns == e.ty.FieldNames();
      Rebuild(i, e);
      var attr: PyDict<Value> := DropIndex(RowTuple(i, df.columns, df.rows[i]));
      var rebuilt := Construct(inner, attr);
      x := rebuilt.value;
    }

    /** `iter`, the `__iter__`: the instances rebuilt from the rows, one per row
        in insertion order, each from its columns with the `Index` entry of
        the tuple dropped. */
    method Iterate() returns (out: seq<Crystal>)
      requires Valid()
      ensures out == elements
      ensures |out| == Len()
      ensures forall k :: 0 <= k < |out| ==>
        out[k].ty == inner && (forall n :: n in out[k].values <==> n in inner.FieldNames()) &&
        "Index" !in out[k].values
    {
      out := [];
      var i := 0;
      while i < |df.rows|
        invariant 0 <= i <= |df.rows|
        invariant |out| == i
        invariant forall k :: 0 <= k < i ==> out[k] == elements[k]
      {
        var rebuilt := RebuildRow(i);
        out := out + [rebuilt];
        i := i + 1;
      }
      assert out == elements;
    }

    /** `call`, the `__call__`: appends one row for `elem` and returns the same
        collection. As written, the source hands the instance's `asdict` to
        `DataFrame.append` without `ignore_index`, which pandas refuses for a
        dict; this is the append the call evidently means, renumbering
        the index. The table is replaced by an extended one; the old one is
        not touched. */
    method Append(elem: Crystal) returns (self: Collection)
      requires Valid() && elem.ty == inner && elem.Valid()
      modifies this
      ensures Valid() && self == this && fresh(df)
      ensures elements == old(elements) + [elem]
      ensures df.columns == old(df.columns) && df.rows == old(df.rows) + [elem.values]
    {
      df := new Frame(df.columns, df.rows + [elem.values]);
      elements := elements + [elem];
      self := this;
    }

    /** `optimize`: a deep copy of the table, with as many rows and the same
        columns; the collection itself is left as it is. The source then means
        to narrow `Decimal` columns to `float64`, but as written it passes a
        `Field` object to `getattr`, which raises `TypeError` on a non-empty
        table whose Inner has a `Decimal` field (and so does `str()`, which
        calls `optimize`). The model returns the copy in every case. */
    method Optimize() returns (copy: Frame)
      requires Valid()
      ensures fresh(copy)
      ensures copy.columns == inner.FieldNames() && copy.rows == df.rows
      ensures |copy.rows| == Len()
    {
      copy := df.Copy();
    }

    /** `_dir`, the `__dir__`: `strategy`, `Inner`, `optimize`, then Inner's
        fields in declaration order. (The builtin `dir()` sorts this list.) */
    function Dir(): (r: seq<string>)
      ensures |r| == |Exposed| + |inner.fields|
      ensures r[..3] == Exposed && r[3..] == inner.FieldNames()
      ensures forall n :: n in r <==> n in Exposed || n in inner.FieldNames()
    {
      Exposed + inner.FieldNames()
    }

    /** The text `strraw` builds: the two banner lines, then one line per
        column of the optimized copy, which iterating a DataFrame yields. */
    function RawRendering(): string
    {
      Join("\n", Banner(TypeName()) + inner.FieldNames())
    }

    /** `strraw`, the `__str__` when `tabulate` is not installed. */
    method StrRaw() returns (s: string)
      requires Valid()
      ensures s == RawRendering()
    {
      var optdf := Optimize();
      var typename := TypeName();
      var lines := [typename, Repeat('-', |typename|)];
      for i := 0 to |optdf.columns|
        invariant lines == Banner(typename) + optdf.columns[..i]
      {
        lines := lines + [optdf.columns[i]];
        assert optdf.columns[..i + 1] == optdf.columns[..i] + [optdf.columns[i]];
      }
      assert optdf.columns[..|optdf.columns|] == optdf.columns;
      s := Join("\n", lines);
    }

    /** `strtab`, the `__str__` when `tabulate` is installed; `tabulate` is a
        parameter here, applied to the columns and rows of the optimized copy. */
    method StrTab(tabulate: (seq<string>, seq<Row>) -> string) returns (s: string)
      requires Valid()
      ensures s == Join("\n", Banner(TypeName())) + "\n" + tabulate(df.columns, df.rows)
    {
      var optdf := Optimize();
      var typename := TypeName();
      var lines := [typename, Repeat('-', |typename|)];
      s := Join("\n", lines) + "\n" + tabulate(optdf.columns, optdf.rows);
    }
  }

  /** Membership agrees with iteration: every instance that iterating yields
      is in the collection, and it yields as many as the length. */
  lemma IteratedAreContained(c: Collection, out: seq<Crystal>)
    requires c.Valid() && out == c.elements
    ensures |out| == c.Len()
    ensures forall k :: 0 <= k < |out| ==> out[k].ty == c.inner && out[k].Valid() && c.Contains(out[k])
  {
  }

  /** An empty collection contains nothing. */
  lemma EmptyContainsNothing(c: Collection, item: Crystal)
    requires c.Valid() && item.ty == c.inner && item.Valid() && c.Len() == 0
    ensures !c.Contains(item)
  {
  }

  /** When Inner has no fields, a non-empty collection contains every instance
      of Inner: all of them are equal. */
  lemma NoFieldsContainsAll(c: Collection, item: Crystal)
    requires c.Valid() && item.ty == c.inner && item.Valid()
    requires c.inner.fields == [] && c.Len() > 0
    ensures c.Contains(item)
  {
    assert c.elements[0].values == item.values;
    assert c.elements[0] == item;
  }

  /** The fallback rendering starts with the collection's type name and a rule
      as long, and shows every field name of Inner on a line of its own. */
  lemma RawRenderingShape(c: Collection)
    ensures c.TypeName() + "\n" + Repeat('-', |c.TypeName()|) <= c.RawRendering()
    ensures IsInfix(c.TypeName(), c.RawRendering())
    ensures forall n :: n in c.inner.FieldNames() ==> IsInfix(n, c.RawRendering())
  {
    var lines := Banner(c.TypeName()) + c.inner.FieldNames();
    BannerPrefix(c.TypeName(), c.inner.FieldNames());
    JoinHasPart("\n", lines, 0);
    forall n | n in c.inner.FieldNames() ensures IsInfix(n, c.RawRendering()) {
      var i :| 0 <= i < |c.inner.FieldNames()| && c.inner.FieldNames()[i] == n;
      assert lines[i + 2] == n;
      JoinHasPart("\n", lines, i + 2);
    }
  }

  /** The tabulated rendering starts the same way, whatever `tabulate` makes
      of the table. */
  lemma TabRenderingStart(title: string, table: string)
    ensures title + "\n" + Repeat('-', |title|) <= Join("\n", Banner(title)) + "\n" + table
  {
    var rule := Repeat('-', |title|);
    assert Banner(title)[1..] == [rule];
    assert Join("\n", Banner(title)) == title + "\n" + rule;
  }
}
