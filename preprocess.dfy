/**
 * The per-column cleaning stages of the sheet preprocessor and the
 * pipeline that chains them: whitespace strip, NA normalisation,
 * boolean, numeric and datetime coercion. Every stage returns a new
 * column and never changes the number of cells.
 */
module Preprocess {
  import opened Wrappers
  import opened Strings
  import opened Classifier

  /**
   * The dtype of a column, as far as the stages look at it. Object is the
   * generic object dtype, Text a pandas string dtype, Numeric any integer
   * or float dtype (kinds i, u, f), NumpyBool numpy's bool (kind b, not
   * equal to "boolean"), Boolean pandas' nullable "boolean" dtype (also of
   * kind b) and DateTime any datetime64 dtype (kind M).
   */
  datatype Kind = Object | Text | Numeric | NumpyBool | Boolean | DateTime

  datatype Column = Column(kind: Kind, cells: seq<Cell>)

  /** dtype.kind in {"O", "S", "U"} or is_string_dtype */
  predicate IsTextKind(k: Kind) {
    k == Object || k == Text
  }

  /** dtype.kind in {"i", "u", "f", "b", "M"} */
  predicate IsNativeKind(k: Kind) {
    k == Numeric || k == NumpyBool || k == Boolean || k == DateTime
  }

  /** Every non-missing cell of a typed column holds a value of that type. */
  predicate WellTyped(c: Column) {
    forall i :: 0 <= i < |c.cells| ==> CellFits(c.kind, c.cells[i])
  }

  predicate IsNumberOrNull(v: Cell) {
    v.Null? || v.Int? || v.Num?
  }

  predicate CellFits(k: Kind, v: Cell) {
    match k
    case Object => true
    case Text => v.Null? || v.Str?
    case Numeric => IsNumberOrNull(v)
    case NumpyBool => v.Bool?
    case Boolean => v.Null? || v.Bool?
    case DateTime => v.Null? || v.Date?
  }

  // ---------------------------------------------------------------------
  // Counting, as the stages do it and as a direct definition

  /** series.dropna() */
  function DropNull(cells: seq<Cell>): (r: seq<Cell>)
    ensures |r| <= |cells|
    ensures forall i :: 0 <= i < |r| ==> !r[i].Null?
    ensures forall v :: v in r <==> v in cells && !v.Null?
  {
    if cells == [] then []
    else
      assert cells == [cells[0]] + cells[1..];
      if cells[0].Null? then DropNull(cells[1..])
      else [cells[0]] + DropNull(cells[1..])
  }

  /** dropna() works cell by cell and keeps the order: a missing cell is dropped and any other kept. */
  lemma {:induction false} DropNullConcat(a: seq<Cell>, b: seq<Cell>)
    ensures DropNull(a + b) == DropNull(a) + DropNull(b)
  {
    if a != [] {
      var ab := a + b;
      assert ab != [] && ab[0] == a[0] && ab[1..] == a[1..] + b;
      DropNullConcat(a[1..], b);
      if a[0].Null? {
        assert DropNull(ab) == DropNull(a[1..] + b);
        assert DropNull(a) == DropNull(a[1..]);
      } else {
        assert DropNull(ab) == [a[0]] + DropNull(a[1..] + b);
        assert DropNull(a) == [a[0]] + DropNull(a[1..]);
        assert [a[0]] + (DropNull(a[1..]) + DropNull(b)) == ([a[0]] + DropNull(a[1..])) + DropNull(b);
      }
    } else {
      assert a + b == b;
    }
  }

  /** Length of dropna() of a series of optional values. */
  function CountSome<T>(xs: seq<Option<T>>): (n: nat)
    ensures n <= |xs|
  {
    if xs == [] then 0 else (if xs[0].Some? then 1 else 0) + CountSome(xs[1..])
  }

  /** Sum of a boolean series. */
  function CountTrue(bs: seq<bool>): (n: nat)
    ensures n <= |bs|
  {
    if bs == [] then 0 else (if bs[0] then 1 else 0) + CountTrue(bs[1..])
  }

  /** Number of non-missing cells. */
  function CountNonNull(cells: seq<Cell>): nat {
    if cells == [] then 0 else (if cells[0].Null? then 0 else 1) + CountNonNull(cells[1..])
  }

  /** Number of boolean-like cells. */
  function CountBooleanLike(o: Oracles, cells: seq<Cell>): nat {
    if cells == [] then 0
    else (if IsBooleanLike(o, cells[0]) then 1 else 0) + CountBooleanLike(o, cells[1..])
  }

  /** Number of non-missing cells whose rendering is numeric-like. */
  function CountNumericLike(o: Oracles, cells: seq<Cell>): nat {
    if cells == [] then 0
    else
      var here := !cells[0].Null? && IsNumericLike(Some(Render(o, cells[0])));
      (if here then 1 else 0) + CountNumericLike(o, cells[1..])
  }

  /** Number of cells that parse as timestamps. */
  function CountParsed(o: Oracles, cells: seq<Cell>): nat {
    if cells == [] then 0
    else (if ParseDate(o, cells[0]).Some? then 1 else 0) + CountParsed(o, cells[1..])
  }

  /** series.map(classify) */
  function ClassifyAll(o: Oracles, cells: seq<Cell>): (r: seq<Option<bool>>)
    ensures |r| == |cells|
    ensures forall i :: 0 <= i < |cells| ==> r[i] == Classify(o, cells[i])
  {
    if cells == [] then [] else [Classify(o, cells[0])] + ClassifyAll(o, cells[1..])
  }

  /** series.astype(str) */
  function RenderAll(o: Oracles, cells: seq<Cell>): (r: seq<string>)
    ensures |r| == |cells|
    ensures forall i :: 0 <= i < |cells| ==> r[i] == Render(o, cells[i])
  {
    if cells == [] then [] else [Render(o, cells[0])] + RenderAll(o, cells[1..])
  }

  /** sample.apply(_is_numeric_like) */
  function NumericLikeAll(strs: seq<string>): (r: seq<bool>)
    ensures |r| == |strs|
    ensures forall i :: 0 <= i < |strs| ==> r[i] == IsNumericLike(Some(strs[i]))
  {
    if strs == [] then [] else [IsNumericLike(Some(strs[0]))] + NumericLikeAll(strs[1..])
  }

  /** pd.to_datetime on one cell: missing stays missing, a timestamp is kept. */
  function ParseDate(o: Oracles, v: Cell): Option<int> {
    match v
    case Null => None
    case Date(d) => Some(d)
    case _ => o.toDate(v)
  }

  /** pd.to_datetime(..., errors="coerce", dayfirst=True) over a column's cells. */
  function ParseAll(o: Oracles, cells: seq<Cell>): (r: seq<Option<int>>)
    ensures |r| == |cells|
    ensures forall i :: 0 <= i < |cells| ==> r[i] == ParseDate(o, cells[i])
  {
    if cells == [] then [] else [ParseDate(o, cells[0])] + ParseAll(o, cells[1..])
  }

  lemma {:induction false} DropNullCounts(cells: seq<Cell>)
    ensures |DropNull(cells)| == CountNonNull(cells)
  {
    if cells != [] {
      DropNullCounts(cells[1..]);
    }
  }

  lemma {:induction false} ClassifiedCounts(o: Oracles, cells: seq<Cell>)
    ensures CountSome(ClassifyAll(o, cells)) == CountBooleanLike(o, cells)
  {
    if cells != [] {
      ClassifySpec(o, cells[0]);
      assert ClassifyAll(o, cells)[1..] == ClassifyAll(o, cells[1..]);
      ClassifiedCounts(o, cells[1..]);
    }
  }

  lemma {:induction false} NumericLikeCounts(o: Oracles, cells: seq<Cell>)
    ensures CountTrue(NumericLikeAll(RenderAll(o, DropNull(cells)))) == CountNumericLike(o, cells)
  {
    if cells != [] {
      NumericLikeCounts(o, cells[1..]);
      if !cells[0].Null? {
        var rest := NumericLikeAll(RenderAll(o, DropNull(cells[1..])));
        assert NumericLikeAll(RenderAll(o, DropNull(cells)))
          == [IsNumericLike(Some(Render(o, cells[0])))] + rest;
      }
    }
  }

  lemma {:induction false} ParsedCounts(o: Oracles, cells: seq<Cell>)
    ensures CountSome(ParseAll(o, cells)) == CountParsed(o, cells)
  {
    if cells != [] {
      assert ParseAll(o, cells)[1..] == ParseAll(o, cells[1..]);
      ParsedCounts(o, cells[1..]);
    }
  }

  // ---------------------------------------------------------------------
  // The stages

  predicate IsDateOrNull(v: Cell) {
    v.Null? || v.Date?
  }

  /**
   * The dtype pandas infers for the values an element-wise .apply returns:
   * numbers and missing values give a numeric dtype (int64 for integers
   * alone, float64 otherwise); timestamps and missing values, with at
   * least one timestamp, give datetime64; booleans alone give numpy's
   * bool; anything else, or no value at all, stays object.
   */
  function InferredKind(cells: seq<Cell>): Kind {
    if cells == [] then Object
    else if forall i :: 0 <= i < |cells| ==> IsNumberOrNull(cells[i]) then Numeric
    else if forall i :: 0 <= i < |cells| ==> IsDateOrNull(cells[i]) then DateTime
    else if forall i :: 0 <= i < |cells| ==> cells[i].Bool? then NumpyBool
    else Object
  }

  predicate AllInts(cells: seq<Cell>) {
    forall i :: 0 <= i < |cells| ==> cells[i].Int?
  }

  /** An integer stored in a float64 column. */
  function Widen(v: Cell): Cell {
    if v.Int? then Num(v.whole as real) else v
  }

  /**
   * The series an element-wise .apply returns: its values under the
   * inferred dtype, integers turned into floats when the numeric column
   * also holds floats or missing values.
   */
  function Inferred(cells: seq<Cell>): (r: Column)
    ensures |r.cells| == |cells|
  {
    var k := InferredKind(cells);
    if k == Numeric && !AllInts(cells) then
      Column(Numeric, seq(|cells|, i requires 0 <= i < |cells| => Widen(cells[i])))
    else Column(k, cells)
  }

  /**
   * The inferred kind is numeric iff every value is a number or missing,
   * datetime iff every value is a timestamp or missing and one is a
   * timestamp, numpy bool iff every value is a boolean, and object
   * otherwise; values
   * are kept, except that integers become floats in a column that is not
   * all integers. The result's kind is the one its own values infer.
   */
  lemma InferredSpec(cells: seq<Cell>)
    ensures var r := Inferred(cells);
      && r.kind == InferredKind(cells)
      && r.kind == InferredKind(r.cells)
      && (r.kind == Numeric <==> cells != [] && forall i :: 0 <= i < |cells| ==> IsNumberOrNull(cells[i]))
      && (r.kind == DateTime <==>
            (forall i :: 0 <= i < |cells| ==> IsDateOrNull(cells[i])) && exists i :: 0 <= i < |cells| && cells[i].Date?)
      && (r.kind == NumpyBool <==> cells != [] && forall i :: 0 <= i < |cells| ==> cells[i].Bool?)
      && (r.kind == Numeric || r.kind == DateTime || r.kind == NumpyBool || r.kind == Object)
      && (r.kind != Numeric || AllInts(cells) ==> r.cells == cells)
      && (forall i :: 0 <= i < |cells| ==>
            r.cells[i] == cells[i] || (cells[i].Int? && r.cells[i] == Num(cells[i].whole as real)))
      && (r.kind == Numeric && !AllInts(cells) ==> forall i :: 0 <= i < |cells| ==> !r.cells[i].Int?)
  {
    var r := Inferred(cells);
    if cells != [] && cells[0].Bool? {
      assert !IsNumberOrNull(cells[0]);
    }
    if r.kind == Numeric && !AllInts(cells) {
      assert forall i :: 0 <= i < |cells| ==> IsNumberOrNull(r.cells[i]);
    }
  }

  lemma InferredWellTyped(cells: seq<Cell>)
    ensures WellTyped(Inferred(cells)) && Inferred(cells).kind != Text
  {
    InferredSpec(cells);
  }

  /** Two values inference cannot tell apart. */
  predicate SameShape(v: Cell, w: Cell) {
    && (IsNumberOrNull(v) <==> IsNumberOrNull(w))
    && (IsDateOrNull(v) <==> IsDateOrNull(w))
    && (v.Bool? <==> w.Bool?)
  }

  /** Inference reads only which constructor each value has. */
  lemma InferredKindShape(a: seq<Cell>, b: seq<Cell>)
    requires |a| == |b|
    requires forall i :: 0 <= i < |a| ==> SameShape(a[i], b[i])
    ensures InferredKind(a) == InferredKind(b)
  {
  }

  function StripCell(v: Cell): Cell {
    if v.Str? then Str(Strip(v.text)) else v
  }

  function StrippedCells(cells: seq<Cell>): (r: seq<Cell>)
    ensures |r| == |cells|
  {
    seq(|cells|, i requires 0 <= i < |cells| => StripCell(cells[i]))
  }

  /** _strip_whitespace */
  function StripStage(c: Column): (r: Column)
    ensures |r.cells| == |c.cells|
    ensures r == c || r.kind == InferredKind(r.cells)
  {
    if IsTextKind(c.kind) then
      InferredSpec(StrippedCells(c.cells));
      Inferred(StrippedCells(c.cells))
    else c
  }

  function NaCell(v: Cell): Cell {
    if v.Str? && IsNaText(v.text) then Null else v
  }

  function NaCells(cells: seq<Cell>): (r: seq<Cell>)
    ensures |r| == |cells|
  {
    seq(|cells|, i requires 0 <= i < |cells| => NaCell(cells[i]))
  }

  /** _normalize_na */
  function NaStage(c: Column): (r: Column)
    ensures |r.cells| == |c.cells|
    ensures r == c || r.kind == InferredKind(r.cells)
  {
    if IsNativeKind(c.kind) then c
    else
      InferredSpec(NaCells(c.cells));
      Inferred(NaCells(c.cells))
  }

  function FlagCell(f: Option<bool>): Cell {
    match f
    case Some(b) => Bool(b)
    case None => Null
  }

  /** _maybe_convert_to_boolean; the threshold 0.8 is compared as 5 * count >= 4 * denom. */
  function BooleanStage(o: Oracles, c: Column): (r: Column)
    ensures |r.cells| == |c.cells|
    ensures r == c || r.kind == Boolean
  {
    if c.kind == Boolean then c
    else
      var classified := ClassifyAll(o, c.cells);
      var denom := |DropNull(c.cells)|;
      var boolLikeCount := CountSome(classified);
      if denom > 0 && 5 * boolLikeCount >= 4 * denom then
        Column(Boolean, seq(|c.cells|, i requires 0 <= i < |c.cells| => FlagCell(classified[i])))
      else c
  }

  /** One cell of _to_numeric_series: strip, drop "," and " ", then pd.to_numeric. */
  function NumberCell(o: Oracles, v: Cell): (r: Cell)
    ensures r.Null? || r.Num?
    ensures v.Null? ==> r.Null?
  {
    if v.Null? then Null
    else
      match o.toNumber(RemoveSeparators(Strip(Render(o, v))))
      case Some(x) => Num(x)
      case None => Null
  }

  /** _maybe_convert_to_numeric; the threshold 0.6 is compared as 5 * count >= 3 * |sample|. */
  function NumericStage(o: Oracles, c: Column): (r: Column)
    ensures |r.cells| == |c.cells|
    ensures r == c || r.kind == Numeric
  {
    if c.kind == Numeric || c.kind == Boolean then c
    else
      var sample := RenderAll(o, DropNull(c.cells));
      if |sample| == 0 then c
      else
        var numericLikeCount := CountTrue(NumericLikeAll(sample));
        if 5 * numericLikeCount >= 3 * |sample| then
          Column(Numeric, seq(|c.cells|, i requires 0 <= i < |c.cells| => NumberCell(o, c.cells[i])))
        else c
  }

  function StampCell(d: Option<int>): Cell {
    match d
    case Some(t) => Date(t)
    case None => Null
  }

  /**
   * _maybe_convert_to_datetime; the share of parsed cells is taken over the
   * whole column, missing cells included, and compared as
   * 5 * parsed >= 3 * length. An empty column takes the mean of nothing,
   * which is NaN and fails the comparison.
   */
  function DatetimeStage(o: Oracles, c: Column): (r: Column)
    ensures |r.cells| == |c.cells|
    ensures r == c || r.kind == DateTime
  {
    if c.kind == DateTime then c
    else if o.dateRaises(c.cells) then c
    else
      var parsed := ParseAll(o, c.cells);
      if |parsed| > 0 && 5 * CountSome(parsed) >= 3 * |parsed| then
        Column(DateTime, seq(|c.cells|, i requires 0 <= i < |c.cells| => StampCell(parsed[i])))
      else c
  }

  /** The body of the loop in infer_and_clean_dataframe: the five stages in their order. */
  function CleanColumn(o: Oracles, c: Column): (r: Column)
    ensures |r.cells| == |c.cells|
  {
    DatetimeStage(o, NumericStage(o, BooleanStage(o, NaStage(StripStage(c)))))
  }

  // ---------------------------------------------------------------------
  // What each stage promises

  /**
   * Only string cells of text columns are trimmed, and trimming leaves no
   * whitespace at either end. A text column takes the dtype its values
   * infer. Every other cell comes back as it was, an integer possibly as
   * the equal float, and every non-text column is untouched.
   */
  lemma StripStageSpec(c: Column)
    ensures var r := StripStage(c);
      && |r.cells| == |c.cells|
      && (!IsTextKind(c.kind) ==> r == c)
      && (IsTextKind(c.kind) ==> r.kind == InferredKind(c.cells) && r.kind == InferredKind(r.cells))
      && (forall i :: 0 <= i < |c.cells| && !c.cells[i].Str? ==>
            r.cells[i] == c.cells[i] || (c.cells[i].Int? && r.cells[i] == Num(c.cells[i].whole as real)))
      && (forall i :: 0 <= i < |c.cells| && c.cells[i].Str? && IsTextKind(c.kind) ==>
            && r.cells[i].Str?
            && r.cells[i].text == Strip(c.cells[i].text)
            && (r.cells[i].text == [] || (!IsSpace(r.cells[i].text[0])
                                          && !IsSpace(r.cells[i].text[|r.cells[i].text| - 1]))))
  {
    if IsTextKind(c.kind) {
      StripText(c);
    }
  }

  /** In a text column each cell is stripped, and inference only widens integers. */
  lemma StripText(c: Column)
    requires IsTextKind(c.kind)
    ensures var r := StripStage(c);
      && r.kind == InferredKind(c.cells) && r.kind == InferredKind(r.cells)
      && forall i :: 0 <= i < |c.cells| ==>
           r.cells[i] == StripCell(c.cells[i]) || (c.cells[i].Int? && r.cells[i] == Num(c.cells[i].whole as real))
  {
    var m := StrippedCells(c.cells);
    forall i | 0 <= i < |c.cells|
      ensures SameShape(c.cells[i], m[i])
    {
      assert m[i] == StripCell(c.cells[i]);
    }
    InferredKindShape(c.cells, m);
    InferredSpec(m);
  }

  /** Stripping an already stripped column changes nothing. */
  lemma StripStageIdempotent(c: Column)
    ensures StripStage(StripStage(c)) == StripStage(c)
  {
    var r := StripStage(c);
    if IsTextKind(c.kind) {
      var m := StrippedCells(c.cells);
      InferredSpec(m);
      if IsTextKind(r.kind) {
        assert r.cells == m;
        forall i | 0 <= i < |r.cells|
          ensures StripCell(r.cells[i]) == r.cells[i]
        {
          if c.cells[i].Str? {
            StripIdempotent(c.cells[i].text);
          }
        }
        assert StrippedCells(r.cells) == r.cells;
        InferredSpec(r.cells);
      }
    }
  }

  /**
   * Native numeric, boolean and datetime columns are untouched. Any other
   * column takes the dtype its new values infer; in it a cell becomes
   * missing iff it already was or it is a string whose trimmed, lower-cased
   * text is an NA sentinel, and every other cell is kept, an integer
   * possibly as the equal float.
   */
  lemma NaStageSpec(c: Column)
    ensures var r := NaStage(c);
      && |r.cells| == |c.cells|
      && (IsNativeKind(c.kind) ==> r == c)
      && (!IsNativeKind(c.kind) ==>
            && r.kind == InferredKind(r.cells)
            && forall i :: 0 <= i < |c.cells| ==>
                 && (r.cells[i].Null? <==> (c.cells[i].Null? || (c.cells[i].Str? && IsNaText(c.cells[i].text))))
                 && (!r.cells[i].Null? ==>
                       r.cells[i] == c.cells[i] || (c.cells[i].Int? && r.cells[i] == Num(c.cells[i].whole as real))))
  {
    if !IsNativeKind(c.kind) {
      InferredSpec(NaCells(c.cells));
    }
  }

  /** After NA normalisation no string cell is an NA sentinel, so a second pass changes nothing. */
  lemma NaStageIdempotent(c: Column)
    ensures NaStage(NaStage(c)) == NaStage(c)
  {
    var r := NaStage(c);
    if !IsNativeKind(c.kind) {
      var m := NaCells(c.cells);
      InferredSpec(m);
      if !IsNativeKind(r.kind) {
        assert r.cells == m;
        assert NaCells(r.cells) == r.cells;
        InferredSpec(r.cells);
      }
    }
  }

  /**
   * A column of strings that are all NA sentinels or missing comes out
   * of NA normalisation as an all-missing float column.
   */
  lemma AllSentinelsBecomeFloat(c: Column)
    requires IsTextKind(c.kind) && |c.cells| > 0
    requires forall i :: 0 <= i < |c.cells| ==> c.cells[i].Null? || (c.cells[i].Str? && IsNaText(c.cells[i].text))
    ensures NaStage(c).kind == Numeric
    ensures forall i :: 0 <= i < |c.cells| ==> NaStage(c).cells[i].Null?
  {
    NaStageSpec(c);
    InferredSpec(NaCells(c.cells));
  }

  /**
   * A text column of timestamps with NA placeholders (an Excel date column
   * with "-" for blanks, say) becomes a datetime column at NA
   * normalisation: the timestamps are kept, the placeholders become
   * missing, and the datetime stage then returns the column as it is.
   */
  lemma PlaceholderDatesBecomeDatetime(o: Oracles, c: Column)
    requires IsTextKind(c.kind)
    requires forall i :: 0 <= i < |c.cells| ==>
      c.cells[i].Null? || c.cells[i].Date? || (c.cells[i].Str? && IsNaText(c.cells[i].text))
    requires exists i :: 0 <= i < |c.cells| && c.cells[i].Date?
    ensures NaStage(c).kind == DateTime
    ensures forall i :: 0 <= i < |c.cells| ==>
      NaStage(c).cells[i] == if c.cells[i].Date? then c.cells[i] else Null
    ensures DatetimeStage(o, NaStage(c)) == NaStage(c)
  {
    var m := NaCells(c.cells);
    InferredSpec(m);
    var k :| 0 <= k < |c.cells| && c.cells[k].Date?;
    assert m[k].Date?;
    assert !IsNumberOrNull(m[k]);
  }

  /**
   * An already boolean column is left alone. Any other column is converted
   * iff it has non-missing cells and at least 80% of them are boolean-like;
   * a converted cell is true for a truthy token, false for a falsy one and
   * missing otherwise. A column that is not converted is returned as it was.
   */
  lemma BooleanStageSpec(o: Oracles, c: Column)
    ensures var r := BooleanStage(o, c);
      var denom := CountNonNull(c.cells);
      && (c.kind == Boolean ==> r == c)
      && (c.kind != Boolean ==>
            && (r.kind == Boolean <==> denom > 0 && 5 * CountBooleanLike(o, c.cells) >= 4 * denom)
            && (r.kind != Boolean ==> r == c))
      && (r.kind == Boolean && c.kind != Boolean ==>
            forall i :: 0 <= i < |c.cells| ==>
              var v := c.cells[i];
              && (r.cells[i] == Bool(true) <==> !v.Null? && Token(o, v) in Truthy)
              && (r.cells[i] == Bool(false) <==> !v.Null? && Token(o, v) in Falsy)
              && (r.cells[i].Null? <==> !IsBooleanLike(o, v)))
  {
    DropNullCounts(c.cells);
    ClassifiedCounts(o, c.cells);
    forall i | 0 <= i < |c.cells| {
      ClassifySpec(o, c.cells[i]);
    }
  }

  /**
   * Numeric and boolean columns, and columns without a non-missing cell,
   * are left alone. Any other column is converted iff at least 60% of its
   * non-missing cells are numeric-like; a converted cell is the parse of
   * its text with surrounding whitespace, "," and " " removed, and missing
   * when it was missing or does not parse. A column that is not converted
   * is returned as it was.
   */
  lemma NumericStageSpec(o: Oracles, c: Column)
    ensures var r := NumericStage(o, c);
      var denom := CountNonNull(c.cells);
      && (c.kind == Numeric || c.kind == Boolean || denom == 0 ==> r == c)
      && (c.kind != Numeric ==>
            && (r.kind == Numeric <==>
                  c.kind != Boolean && denom > 0 && 5 * CountNumericLike(o, c.cells) >= 3 * denom)
            && (r.kind != Numeric ==> r == c))
      && (r.kind == Numeric && c.kind != Numeric ==>
            forall i :: 0 <= i < |c.cells| ==>
              var v := c.cells[i];
              r.cells[i] == if v.Null? then Null
                            else match o.toNumber(RemoveSeparators(Strip(Render(o, v))))
                                 case Some(x) => Num(x)
                                 case None => Null)
  {
    DropNullCounts(c.cells);
    NumericLikeCounts(o, c.cells);
  }

  /**
   * A datetime column is left alone. Any other column takes its parsed
   * form iff the parse does not raise for the column and at least 60% of
   * all its cells, missing ones counted, parse; then a parsed cell holds
   * its timestamp and every other cell is missing. Otherwise the column is
   * returned as it was.
   */
  lemma DatetimeStageSpec(o: Oracles, c: Column)
    ensures var r := DatetimeStage(o, c);
      var n := |c.cells|;
      && (c.kind == DateTime ==> r == c)
      && (c.kind != DateTime ==>
            && (r.kind == DateTime <==>
                  !o.dateRaises(c.cells) && n > 0 && 5 * CountParsed(o, c.cells) >= 3 * n)
            && (r.kind != DateTime ==> r == c))
      && (r.kind == DateTime && c.kind != DateTime ==>
            forall i :: 0 <= i < n ==>
              (r.cells[i].Date? <==> ParseDate(o, c.cells[i]).Some?)
              && (r.cells[i].Date? ==> Some(r.cells[i].stamp) == ParseDate(o, c.cells[i]))
              && (!r.cells[i].Date? ==> r.cells[i].Null?))
  {
    ParsedCounts(o, c.cells);
  }

  /** A stage whose output carries its own target type skips that output on a second pass. */
  lemma CoercionsSettle(o: Oracles, c: Column)
    ensures BooleanStage(o, BooleanStage(o, c)) == BooleanStage(o, c)
    ensures NumericStage(o, NumericStage(o, c)) == NumericStage(o, c)
    ensures DatetimeStage(o, DatetimeStage(o, c)) == DatetimeStage(o, c)
    ensures NumericStage(o, BooleanStage(o, c)) == BooleanStage(o, c) || BooleanStage(o, c) == c
  {
  }

  lemma StripKeepsTypes(c: Column)
    requires WellTyped(c)
    ensures WellTyped(StripStage(c)) && StripStage(c).kind != Text
  {
    if IsTextKind(c.kind) {
      InferredWellTyped(StrippedCells(c.cells));
    }
  }

  lemma NaKeepsTypes(c: Column)
    requires WellTyped(c)
    ensures WellTyped(NaStage(c)) && (c.kind != Text ==> NaStage(c).kind != Text)
  {
    if !IsNativeKind(c.kind) {
      InferredWellTyped(NaCells(c.cells));
    }
  }

  lemma BooleanKeepsTypes(o: Oracles, c: Column)
    requires WellTyped(c)
    ensures WellTyped(BooleanStage(o, c))
  {
    var r := BooleanStage(o, c);
    if r != c {
      forall i | 0 <= i < |r.cells| ensures CellFits(Boolean, r.cells[i]) {
      }
    }
  }

  lemma NumericKeepsTypes(o: Oracles, c: Column)
    requires WellTyped(c)
    ensures WellTyped(NumericStage(o, c))
  {
    var r := NumericStage(o, c);
    if r != c {
      forall i | 0 <= i < |r.cells| ensures CellFits(Numeric, r.cells[i]) {
      }
    }
  }

  lemma DatetimeKeepsTypes(o: Oracles, c: Column)
    requires WellTyped(c)
    ensures WellTyped(DatetimeStage(o, c))
  {
    var r := DatetimeStage(o, c);
    if r != c {
      forall i | 0 <= i < |r.cells| ensures CellFits(DateTime, r.cells[i]) {
      }
    }
  }

  /** The pipeline keeps every column's length and the values of a typed column fit its type. */
  lemma CleanColumnWellTyped(o: Oracles, c: Column)
    requires WellTyped(c)
    ensures var r := CleanColumn(o, c);
      && |r.cells| == |c.cells|
      && WellTyped(r)
      && r.kind != Text
  {
    var s1 := StripStage(c);
    StripKeepsTypes(c);
    var s2 := NaStage(s1);
    NaKeepsTypes(s1);
    var s3 := BooleanStage(o, s2);
    BooleanKeepsTypes(o, s2);
    var s4 := NumericStage(o, s3);
    NumericKeepsTypes(o, s3);
    DatetimeKeepsTypes(o, s4);
  }

  // ---------------------------------------------------------------------
  // The datetime stage and numeric columns

  lemma {:induction false} AllNonNull(cells: seq<Cell>)
    requires forall i :: 0 <= i < |cells| ==> !cells[i].Null?
    ensures CountNonNull(cells) == |cells|
  {
    if cells != [] {
      AllNonNull(cells[1..]);
    }
  }

  lemma {:induction false} AllParsed(o: Oracles, cells: seq<Cell>)
    requires forall i :: 0 <= i < |cells| ==> ParseDate(o, cells[i]).Some?
    ensures CountParsed(o, cells) == |cells|
  {
    if cells != [] {
      AllParsed(o, cells[1..]);
    }
  }

  /**
   * The datetime stage as written has no guard for numeric columns, and
   * pd.to_datetime reads a number as an offset from the epoch. So a
   * numeric column that the boolean stage does not take (fewer than 80% of
   * its values read as boolean tokens, as for [1, 2, 3]) and whose values
   * all parse ends up as timestamps: its numbers are reinterpreted as dates.
   */
  lemma NumericColumnsBecomeDates(o: Oracles, c: Column)
    requires c.kind == Numeric && |c.cells| > 0
    requires forall i :: 0 <= i < |c.cells| ==>
      (c.cells[i].Int? || c.cells[i].Num?) && o.toDate(c.cells[i]).Some?
    requires 5 * CountBooleanLike(o, c.cells) < 4 * |c.cells|
    requires !o.dateRaises(c.cells)
    ensures CleanColumn(o, c).kind == DateTime
    ensures CleanColumnGuarded(o, c) == c
  {
    assert StripStage(c) == c && NaStage(c) == c;
    BooleanSkipsNumbers(o, c);
    assert NumericStage(o, c) == c;
    AllParsed(o, c.cells);
    DatetimeStageSpec(o, c);
  }

  lemma BooleanSkipsNumbers(o: Oracles, c: Column)
    requires forall i :: 0 <= i < |c.cells| ==> c.cells[i].Int? || c.cells[i].Num?
    requires 5 * CountBooleanLike(o, c.cells) < 4 * |c.cells|
    ensures BooleanStage(o, c) == c || c.kind == Boolean
  {
    AllNonNull(c.cells);
    BooleanStageSpec(o, c);
  }

  /** The datetime stage with a guard for numeric columns: a column settled as numeric is never reinterpreted as dates. */
  function DatetimeStageGuarded(o: Oracles, c: Column): (r: Column)
    ensures |r.cells| == |c.cells|
    ensures c.kind == Numeric ==> r == c
  {
    if c.kind == Numeric then c else DatetimeStage(o, c)
  }

  /** The pipeline with the guarded datetime stage. */
  function CleanColumnGuarded(o: Oracles, c: Column): (r: Column)
    ensures |r.cells| == |c.cells|
  {
    DatetimeStageGuarded(o, NumericStage(o, BooleanStage(o, NaStage(StripStage(c)))))
  }

  /**
   * With the guard, whatever the numeric stage settles as numeric stays
   * numeric, and every other column ends as the pipeline as written leaves it.
   */
  lemma GuardedKeepsNumbers(o: Oracles, c: Column)
    ensures var n := NumericStage(o, BooleanStage(o, NaStage(StripStage(c))));
      && (n.kind == Numeric ==> CleanColumnGuarded(o, c) == n)
      && (n.kind != Numeric ==> CleanColumnGuarded(o, c) == CleanColumn(o, c))
  {
  }
}
