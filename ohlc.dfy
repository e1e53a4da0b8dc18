/** The OHLC example: a `Candle` crystal of four integers, the collection of
    candles, and `as_candle`, which folds the candles of a collection into one. */
module Ohlc {
  import opened Results
  import opened Values
  import opened OrderedDicts
  import opened Crystals
  import opened Collections

  /** A candle's four prices. */
  datatype Candle = Candle(open: int, high: int, low: int, close: int)

  /** The error `as_candle` meets first on an empty collection: `iloc[0]` has
      no row to return (an `IndexError` in Python). */
  datatype AggError = IndexOutOfBounds

  const FieldOrder: seq<string> := ["open", "high", "low", "close"]

  /** The `Candle` class as written: four `int` annotations, no defaults. */
  function CandleDecl(): ClassDecl
  {
    ClassDecl(0, "Candle",
              Dict(FieldOrder, map["open" := IntType, "high" := IntType, "low" := IntType, "close" := IntType]),
              map[])
  }

  /** The crystal type of `Candle`. */
  function CandleType(): (t: CrystalType)
    ensures t.Valid() && t.FieldNames() == FieldOrder && t.name == "Candle"
    ensures forall i :: 0 <= i < |t.fields| ==> t.fields[i].typ == IntType && t.fields[i].default.None?
  {
    var t := CrystalType(0, "Candle", [Field("open", IntType, None), Field("high", IntType, None),
                                       Field("low", IntType, None), Field("close", IntType, None)], false);
    assert t.FieldNames() == FieldOrder;
    t
  }

  lemma CandleNamesAreIdentifiers()
    ensures forall k :: k in CandleDecl().annotations.keys ==> IsIdentifier(k)
  {
    assert IsIdentifier("open") && IsIdentifier("high") && IsIdentifier("low") && IsIdentifier("close");
  }

  /** Decorating the `Candle` class succeeds: no defaults, and the names are
      identifiers. */
  lemma CandleAccepted()
    ensures MakeDataclass(CandleDecl(), false).Ok?
  {
    CandleNamesAreIdentifiers();
  }

  /** Decorating the `Candle` class gives `CandleType`. */
  lemma CandleDecorated()
    ensures MakeDataclass(CandleDecl(), false) == Ok(CandleType())
  {
    CandleAccepted();
    var r := MakeDataclass(CandleDecl(), false);
    assert r.value.fields == CandleType().fields;
  }

  /** A row (or an instance's values) holding the four prices as integers. */
  predicate IsCandleRow(row: Row)
  {
    "open" in row && "high" in row && "low" in row && "close" in row &&
    row["open"].IntVal? && row["high"].IntVal? && row["low"].IntVal? && row["close"].IntVal?
  }

  function CandleOfRow(row: Row): Candle
    requires IsCandleRow(row)
  {
    Candle(row["open"].i, row["high"].i, row["low"].i, row["close"].i)
  }

  /** The keyword arguments of `Candle(open=…, high=…, low=…, close=…)`. */
  function KwArgs(k: Candle): PyDict<Value>
  {
    Dict(FieldOrder, map["open" := IntVal(k.open), "high" := IntVal(k.high), "low" := IntVal(k.low), "close" := IntVal(k.close)])
  }

  /** The `Candle` instance with the prices of `k`. */
  function CandleRecord(k: Candle): (r: Crystal)
    ensures r.Valid() && r.ty == CandleType()
    ensures IsCandleRow(r.values) && CandleOfRow(r.values) == k
  {
    Crystal(CandleType(), map["open" := IntVal(k.open), "high" := IntVal(k.high), "low" := IntVal(k.low), "close" := IntVal(k.close)])
  }

  /** `Candle(open=…, high=…, low=…, close=…)` always succeeds and gives the
      instance with those prices. */
  lemma ConstructCandle(k: Candle)
    ensures Construct(CandleType(), KwArgs(k)) == Ok(CandleRecord(k))
  {
    assert KwArgs(k) == AsDict(CandleRecord(k));
    ConstructAsDict(CandleRecord(k));
  }

  /** A `Candle` instance with integer prices is the record of its own prices. */
  lemma RecordOfRow(x: Crystal)
    requires x.Valid() && x.ty == CandleType() && IsCandleRow(x.values)
    ensures x == CandleRecord(CandleOfRow(x.values))
  {
    assert x.values == CandleRecord(CandleOfRow(x.values)).values;
  }

  /** Records of candles are valid `Candle` instances with integer prices. */
  lemma RecordsFit(xs: seq<Crystal>, ks: seq<Candle>)
    requires |xs| == |ks| && forall i :: 0 <= i < |ks| ==> xs[i] == CandleRecord(ks[i])
    ensures forall i :: 0 <= i < |xs| ==> xs[i].ty == CandleType() && xs[i].Valid() && IsCandleRow(xs[i].values)
    ensures CandlesOf(xs) == ks
  {
  }

  /** The candle fields pass through `itertuples` unrenamed. */
  lemma CandleFieldsTupleSafe()
    ensures CandleType().Valid() && forall n :: n in CandleType().FieldNames() ==> TupleSafe(n)
  {
  }

  /** `max(df.high)` */
  function MaxHigh(s: seq<Candle>): (m: int)
    requires |s| > 0
    ensures forall i :: 0 <= i < |s| ==> s[i].high <= m
    ensures exists i :: 0 <= i < |s| && s[i].high == m
  {
    if |s| == 1 then s[0].high
    else
      var rest := MaxHigh(s[1..]);
      assert forall i :: 1 <= i < |s| ==> s[i] == s[1..][i - 1];
      if s[0].high >= rest then s[0].high else rest
  }

  /** `min(df.low)` */
  function MinLow(s: seq<Candle>): (m: int)
    requires |s| > 0
    ensures forall i :: 0 <= i < |s| ==> m <= s[i].low
    ensures exists i :: 0 <= i < |s| && s[i].low == m
  {
    if |s| == 1 then s[0].low
    else
      var rest := MinLow(s[1..]);
      assert forall i :: 1 <= i < |s| ==> s[i] == s[1..][i - 1];
      if s[0].low <= rest then s[0].low else rest
  }

  /** `as_candle` on the candles of a collection, in order: the open of the
      first, the highest high, the lowest low and the close of the last; an
      error when there is no candle. */
  function AsCandle(s: seq<Candle>): (r: Result<Candle, AggError>)
    ensures r.Err? <==> |s| == 0
    ensures r.Ok? ==> r.value.open == s[0].open && r.value.close == s[|s| - 1].close
    ensures r.Ok? ==> (forall i :: 0 <= i < |s| ==> s[i].high <= r.value.high) &&
                      (exists i :: 0 <= i < |s| && s[i].high == r.value.high)
    ensures r.Ok? ==> (forall i :: 0 <= i < |s| ==> r.value.low <= s[i].low) &&
                      (exists i :: 0 <= i < |s| && s[i].low == r.value.low)
  {
    if |s| == 0 then Err(IndexOutOfBounds)
    else Ok(Candle(s[0].open, MaxHigh(s), MinLow(s), s[|s| - 1].close))
  }

  /** The candles of a sequence of rows. */
  function Candles(rows: seq<Row>): (r: seq<Candle>)
    requires forall i :: 0 <= i < |rows| ==> IsCandleRow(rows[i])
    ensures |r| == |rows|
    ensures forall i :: 0 <= i < |rows| ==> r[i] == CandleOfRow(rows[i])
  {
    seq(|rows|, i requires 0 <= i < |rows| => CandleOfRow(rows[i]))
  }

  /** The candles appended to a collection, in order. */
  ghost function CandlesOf(elems: seq<Crystal>): seq<Candle>
    requires forall i :: 0 <= i < |elems| ==> IsCandleRow(elems[i].values)
  {
    Candles(RowsOf(elems))
  }

  /** `OHLC.as_candle(self)`: read the first and last rows and the `high` and
      `low` columns of the table, and build a `Candle` from them. */
  function CollectionCandle(c: Collection): (r: Result<Crystal, AggError>)
    reads c, c.df
    requires c.Valid() && c.inner == CandleType()
    requires forall i :: 0 <= i < |c.elements| ==> IsCandleRow(c.elements[i].values)
    ensures r.Err? <==> c.Len() == 0
    ensures r.Ok? ==> r.value.Valid() && r.value.ty == CandleType() && IsCandleRow(r.value.values)
    ensures r.Ok? ==> AsCandle(CandlesOf(c.elements)) == Ok(CandleOfRow(r.value.values))
  {
    assert RowsOf(c.elements) == c.df.rows;
    var agg := AsCandle(Candles(c.df.rows));
    if agg.Err? then Err(agg.error)
    else
      ConstructCandle(agg.value);
      var made := Construct(CandleType(), KwArgs(agg.value));
      Ok(made.value)
  }

  /** The worked example: candles (1, 4, 1, 3) then (3, 5, 2, 2) fold into
      (1, 5, 1, 2). */
  lemma WorkedExample()
    ensures AsCandle([Candle(1, 4, 1, 3), Candle(3, 5, 2, 2)]) == Ok(Candle(1, 5, 1, 2))
  {
  }

  /** The example collection has two candles and contains both. */
  lemma ExampleMembership(c: Collection)
    requires c.Valid() && c.inner == CandleType()
    requires c.elements == [CandleRecord(Candle(1, 4, 1, 3)), CandleRecord(Candle(3, 5, 2, 2))]
    ensures c.Len() == 2
    ensures c.Contains(CandleRecord(Candle(1, 4, 1, 3))) && c.Contains(CandleRecord(Candle(3, 5, 2, 2)))
    ensures !c.Contains(CandleRecord(Candle(1, 5, 1, 2)))
  {
    assert CandleRecord(Candle(1, 5, 1, 2)) != c.elements[0] by {
      assert CandleOfRow(c.elements[0].values) == Candle(1, 4, 1, 3);
    }
    assert CandleRecord(Candle(1, 5, 1, 2)) != c.elements[1] by {
      assert CandleOfRow(c.elements[1].values) == Candle(3, 5, 2, 2);
    }
  }

  /** `Candle(open=k.open, high=k.high, low=k.low, close=k.close)` */
  method MakeCandle(k: Candle) returns (x: Crystal)
    ensures x == CandleRecord(k)
  {
    ConstructCandle(k);
    var made := Construct(CandleType(), KwArgs(k));
    x := made.value;
  }

  /** `as_candle` on the example collection gives `Candle(1, 5, 1, 2)`. */
  lemma ExampleAggregate(c: Collection)
    requires c.Valid() && c.inner == CandleType()
    requires c.elements == [CandleRecord(Candle(1, 4, 1, 3)), CandleRecord(Candle(3, 5, 2, 2))]
    ensures forall i :: 0 <= i < |c.elements| ==> IsCandleRow(c.elements[i].values)
    ensures CollectionCandle(c) == Ok(CandleRecord(Candle(1, 5, 1, 2)))
  {
    RecordsFit(c.elements, [Candle(1, 4, 1, 3), Candle(3, 5, 2, 2)]);
    WorkedExample();
    RecordOfRow(CollectionCandle(c).value);
  }

  /** `ohlc = OHLC(Candle(1, 4, 1, 3), Candle(3, 5, 2, 2))`, then
      `ohlc.as_candle()`. */
  method BuildOhlc() returns (ohlc: Collection, agg: Result<Crystal, AggError>)
    ensures fresh(ohlc) && ohlc.Valid() && ohlc.inner == CandleType()
    ensures ohlc.elements == [CandleRecord(Candle(1, 4, 1, 3)), CandleRecord(Candle(3, 5, 2, 2))]
    ensures agg == Ok(CandleRecord(Candle(1, 5, 1, 2)))
    ensures ohlc.Len() == 2
  {
    var first := MakeCandle(Candle(1, 4, 1, 3));
    var second := MakeCandle(Candle(3, 5, 2, 2));
    var candles := [first, second];
    CandleFieldsTupleSafe();
    RecordsFit(candles, [Candle(1, 4, 1, 3), Candle(3, 5, 2, 2)]);
    ohlc := new Collection(CandleType(), candles);
    agg := CollectionCandle(ohlc);
    ExampleAggregate(ohlc);
    ExampleMembership(ohlc);
  }
}
