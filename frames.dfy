/**
 * The table driver infer_and_clean_dataframe: it copies the frame, trims
 * string column labels, and runs the column pipeline on every column in
 * order, writing each result back into the copy.
 */
module Frames {
  import opened Wrappers
  import opened Strings
  import opened Classifier
  import opened Preprocess

  /** A column label: a string, or a label of another type (an integer stands for all of those). */
  datatype Label = Named(name: string) | Other(key: int)

  /** The value of a data frame: its labels, its columns in order, and its number of rows. */
  datatype Table = Table(labels: seq<Label>, columns: seq<Column>, height: nat)

  predicate WellFormed(t: Table) {
    && |t.labels| == |t.columns|
    && forall i :: 0 <= i < |t.columns| ==> |t.columns[i].cells| == t.height
  }

  /**
   * Selecting a column by a label that occurs twice yields a frame rather
   * than a series, and the first stage's use of `.dtype` on it raises.
   */
  datatype TableError = RepeatedLabel(repeated: Label)

  /** `c.strip() if isinstance(c, str) else c` */
  function TrimLabel(l: Label): Label {
    match l
    case Named(s) => Named(Strip(s))
    case Other(_) => l
  }

  function TrimLabels(ls: seq<Label>): (r: seq<Label>)
    ensures |r| == |ls|
    ensures forall i :: 0 <= i < |ls| ==> r[i] == TrimLabel(ls[i])
  {
    seq(|ls|, i requires 0 <= i < |ls| => TrimLabel(ls[i]))
  }

  /** How many times a label occurs among the labels. */
  function Occurrences(ls: seq<Label>, l: Label): nat {
    if ls == [] then 0 else (if ls[0] == l then 1 else 0) + Occurrences(ls[1..], l)
  }

  /** A label occurs at all iff it is listed, and more than once iff two distinct positions hold it. */
  lemma OccurrencesSpec(ls: seq<Label>, l: Label)
    ensures Occurrences(ls, l) > 0 <==> l in ls
    ensures Occurrences(ls, l) > 1 <==> exists i, j :: 0 <= i < j < |ls| && ls[i] == l && ls[j] == l
  {
    OccurrencesIn(ls, l);
    if Occurrences(ls, l) > 1 {
      var i, j := TwiceWitness(ls, l);
    }
    if exists i, j :: 0 <= i < j < |ls| && ls[i] == l && ls[j] == l {
      var i, j :| 0 <= i < j < |ls| && ls[i] == l && ls[j] == l;
      TwicePositions(ls, l, i, j);
    }
  }

  lemma {:induction false} OccurrencesIn(ls: seq<Label>, l: Label)
    ensures Occurrences(ls, l) > 0 <==> l in ls
  {
    if ls != [] {
      OccurrencesIn(ls[1..], l);
      assert ls == [ls[0]] + ls[1..];
    }
  }

  lemma {:induction false} TwiceWitness(ls: seq<Label>, l: Label) returns (i: nat, j: nat)
    requires Occurrences(ls, l) > 1
    ensures i < j < |ls| && ls[i] == l && ls[j] == l
  {
    var rest := ls[1..];
    if ls[0] == l {
      OccurrencesIn(rest, l);
      var m :| 0 <= m < |rest| && rest[m] == l;
      i, j := 0, m + 1;
    } else {
      var i', j' := TwiceWitness(rest, l);
      i, j := i' + 1, j' + 1;
    }
  }

  lemma {:induction false} TwicePositions(ls: seq<Label>, l: Label, i: nat, j: nat)
    requires i < j < |ls| && ls[i] == l && ls[j] == l
    ensures Occurrences(ls, l) > 1
  {
    var rest := ls[1..];
    if i == 0 {
      assert rest[j - 1] == l;
      OccurrencesIn(rest, l);
    } else {
      TwicePositions(rest, l, i - 1, j - 1);
    }
  }

  /** The first position, from k on, whose label occurs more than once. */
  function FirstRepeated(ls: seq<Label>, k: nat): (r: Option<nat>)
    requires k <= |ls|
    ensures r.Some? ==> k <= r.value < |ls| && Occurrences(ls, ls[r.value]) > 1
    ensures r.Some? ==> forall j :: k <= j < r.value ==> Occurrences(ls, ls[j]) <= 1
    ensures r.None? ==> forall j :: k <= j < |ls| ==> Occurrences(ls, ls[j]) <= 1
    decreases |ls| - k
  {
    if k == |ls| then None
    else if Occurrences(ls, ls[k]) > 1 then Some(k)
    else FirstRepeated(ls, k + 1)
  }

  /**
   * The positional pipeline: every column cleaned where it stands, under
   * its trimmed label. It is what the driver computes when no two trimmed
   * labels coincide.
   */
  function CleanTable(o: Oracles, t: Table): (r: Table)
    ensures |r.columns| == |t.columns|
  {
    Table(TrimLabels(t.labels), CleanColumns(o, t.columns), t.height)
  }

  /** The pipeline applied to each column of a sequence, in order. */
  function CleanColumns(o: Oracles, cs: seq<Column>): (r: seq<Column>)
    ensures |r| == |cs|
    ensures forall i :: 0 <= i < |cs| ==> r[i] == CleanColumn(o, cs[i])
  {
    seq(|cs|, i requires 0 <= i < |cs| => CleanColumn(o, cs[i]))
  }

  /** infer_and_clean_dataframe as written: it fails at the first column whose trimmed label repeats. */
  function InferAndCleanSpec(o: Oracles, t: Table): (r: Result<Table, TableError>)
    ensures r.Failure? ==> Occurrences(TrimLabels(t.labels), r.error.repeated) > 1
    ensures r.Success? ==> forall i :: 0 <= i < |t.labels| ==> Occurrences(TrimLabels(t.labels), TrimLabels(t.labels)[i]) <= 1
    ensures r.Success? ==> |r.value.columns| == |t.columns| && r.value.height == t.height
  {
    var labels := TrimLabels(t.labels);
    match FirstRepeated(labels, 0)
    case Some(k) => Failure(RepeatedLabel(labels[k]))
    case None => Success(CleanTable(o, t))
  }

  /** A pandas data frame; the driver works on a copy and writes columns back one by one. */
  class Frame {
    var labels: seq<Label>
    var columns: seq<Column>
    var height: nat

    function Value(): Table
      reads this
    {
      Table(labels, columns, height)
    }

    ghost predicate Valid()
      reads this
    {
      WellFormed(Value())
    }

    constructor (t: Table)
      requires WellFormed(t)
      ensures Valid() && Value() == t
    {
      labels, columns, height := t.labels, t.columns, t.height;
    }

    /** df.copy() */
    method Copy() returns (f: Frame)
      requires Valid()
      ensures fresh(f) && f.Valid() && f.Value() == Value()
    {
      f := new Frame(Value());
    }

    /** frame.columns = ls */
    method SetLabels(ls: seq<Label>)
      requires Valid() && |ls| == |labels|
      modifies this
      ensures Valid() && labels == ls && columns == old(columns) && height == old(height)
    {
      labels := ls;
    }

    /** frame[col] = c, for the label standing at position i */
    method SetColumn(i: nat, c: Column)
      requires Valid() && i < |columns| && |c.cells| == height
      modifies this
      ensures Valid() && labels == old(labels) && height == old(height)
      ensures columns == old(columns)[i := c]
    {
      columns := columns[i := c];
    }
  }

  /** The loop body of infer_and_clean_dataframe: the five stages applied in turn to one column. */
  method CleanSeries(o: Oracles, c: Column) returns (s: Column)
    ensures s == CleanColumn(o, c)
  {
    s := StripStage(c);
    s := NaStage(s);
    s := BooleanStage(o, s);
    s := NumericStage(o, s);
    s := DatetimeStage(o, s);
  }

  /** The columns after the loop has cleaned the first i of them. */
  ghost function Partly(o: Oracles, before: seq<Column>, i: nat): (r: seq<Column>)
    ensures |r| == |before|
  {
    seq(|before|, k requires 0 <= k < |before| => if k < i then CleanColumn(o, before[k]) else before[k])
  }

  lemma PartlyStep(o: Oracles, before: seq<Column>, i: nat)
    requires i < |before|
    ensures Partly(o, before, i)[i := CleanColumn(o, before[i])] == Partly(o, before, i + 1)
  {
  }

  lemma PartlyDone(o: Oracles, before: seq<Column>)
    ensures Partly(o, before, |before|) == CleanColumns(o, before)
  {
  }

  /**
   * The loop of infer_and_clean_dataframe over a frame whose labels are
   * already trimmed: each column, in order, is selected by its label,
   * cleaned and written back. It stops with the label at the first column
   * whose label repeats.
   */
  method CleanEachColumn(cleaned: Frame, o: Oracles) returns (repeated: Option<Label>)
    requires cleaned.Valid()
    modifies cleaned
    ensures cleaned.Valid() && cleaned.labels == old(cleaned.labels) && cleaned.height == old(cleaned.height)
    ensures var first := FirstRepeated(cleaned.labels, 0);
      && (repeated.Some? <==> first.Some?)
      && (first.Some? ==> repeated == Some(cleaned.labels[first.value]))
      && (first.None? ==> cleaned.columns == CleanColumns(o, old(cleaned.columns)))
  {
    ghost var before := cleaned.columns;
    var i := 0;
    while i < |cleaned.labels|
      invariant cleaned.Valid()
      invariant 0 <= i <= |cleaned.labels|
      invariant cleaned.labels == old(cleaned.labels) && cleaned.height == old(cleaned.height)
      invariant cleaned.columns == Partly(o, before, i)
      invariant FirstRepeated(cleaned.labels, 0) == FirstRepeated(cleaned.labels, i)
    {
      var col := cleaned.labels[i];
      if Occurrences(cleaned.labels, col) > 1 {
        return Some(col);
      }
      var s := CleanSeries(o, cleaned.columns[i]);
      PartlyStep(o, before, i);
      cleaned.SetColumn(i, s);
      i := i + 1;
    }
    PartlyDone(o, before);
    return None;
  }

  /** infer_and_clean_dataframe; the caller's frame is never changed. */
  method InferAndClean(df: Frame, o: Oracles) returns (r: Result<Frame, TableError>)
    requires df.Valid()
    ensures df.Value() == old(df.Value())
    ensures var spec := InferAndCleanSpec(o, df.Value());
      && (r.Success? <==> spec.Success?)
      && (r.Failure? ==> r.error == spec.error)
      && (r.Success? ==> fresh(r.value) && r.value.Valid() && r.value.Value() == spec.value)
  {
    ghost var t := df.Value();
    var cleaned := df.Copy();
    cleaned.SetLabels(TrimLabels(cleaned.labels));
    var repeated := CleanEachColumn(cleaned, o);
    if repeated.Some? {
      SpecRepeat(o, t, FirstRepeated(cleaned.labels, 0).value);
      return Failure(RepeatedLabel(repeated.value));
    }
    SpecNoRepeat(o, t);
    return Success(cleaned);
  }

  lemma SpecNoRepeat(o: Oracles, t: Table)
    requires FirstRepeated(TrimLabels(t.labels), 0).None?
    ensures InferAndCleanSpec(o, t) == Success(CleanTable(o, t))
  {
  }

  lemma SpecRepeat(o: Oracles, t: Table, i: nat)
    requires FirstRepeated(TrimLabels(t.labels), 0) == Some(i)
    ensures InferAndCleanSpec(o, t) == Failure(RepeatedLabel(TrimLabels(t.labels)[i]))
  {
  }

  /**
   * The driver fails iff two columns end up with the same trimmed label;
   * otherwise it keeps the number of rows, the number and order of the
   * columns, trims exactly the string labels and replaces every column by
   * the pipeline's result for it.
   */
  lemma InferAndCleanShape(o: Oracles, t: Table)
    requires WellFormed(t)
    ensures var labels := TrimLabels(t.labels);
      var spec := InferAndCleanSpec(o, t);
      && (spec.Failure? <==> exists i, j :: 0 <= i < j < |labels| && labels[i] == labels[j])
      && (spec.Success? ==>
            && WellFormed(spec.value)
            && spec.value.height == t.height
            && |spec.value.columns| == |t.columns|
            && (forall i :: 0 <= i < |t.labels| ==>
                  && (t.labels[i].Other? ==> spec.value.labels[i] == t.labels[i])
                  && (t.labels[i].Named? ==> spec.value.labels[i] == Named(Strip(t.labels[i].name))))
            && (forall i :: 0 <= i < |t.columns| ==> spec.value.columns[i] == CleanColumn(o, t.columns[i])))
  {
    var labels := TrimLabels(t.labels);
    var first := FirstRepeated(labels, 0);
    if first.Some? {
      var k := first.value;
      OccurrencesSpec(labels, labels[k]);
    } else {
      if exists i, j :: 0 <= i < j < |labels| && labels[i] == labels[j] {
        var i, j :| 0 <= i < j < |labels| && labels[i] == labels[j];
        OccurrencesSpec(labels, labels[i]);
        assert Occurrences(labels, labels[i]) <= 1;
      }
    }
  }

  /** The positional pipeline never fails and always keeps the frame's shape. */
  lemma CleanTableShape(o: Oracles, t: Table)
    requires WellFormed(t)
    ensures var r := CleanTable(o, t);
      && WellFormed(r) && r.height == t.height && |r.columns| == |t.columns|
  {
  }

  /**
   * Two columns labelled a and a + " ", for any label a without
   * surrounding whitespace, collide once trimmed, and the driver as
   * written fails on them whatever they hold.
   */
  lemma RepeatedTrimmedLabelsFail(o: Oracles, a: string, c: Column, d: Column)
    requires a != [] && !IsSpace(a[0]) && !IsSpace(a[|a| - 1])
    requires |c.cells| == |d.cells|
    ensures var t := Table([Named(a), Named(a + " ")], [c, d], |c.cells|);
      && WellFormed(t)
      && InferAndCleanSpec(o, t) == Failure(RepeatedLabel(Named(a)))
  {
    var t := Table([Named(a), Named(a + " ")], [c, d], |c.cells|);
    TrimPadded(a);
    PairRepeats(a);
    SpecRepeat(o, t, 0);
  }

  lemma TrimPadded(a: string)
    requires a != [] && !IsSpace(a[0]) && !IsSpace(a[|a| - 1])
    ensures TrimLabels([Named(a), Named(a + " ")]) == [Named(a), Named(a)]
  {
    StripPadded(a);
  }

  lemma PairRepeats(a: string)
    ensures FirstRepeated([Named(a), Named(a)], 0) == Some(0)
  {
    OccurrencesSpec([Named(a), Named(a)], Named(a));
  }

  /** A text without surrounding whitespace strips to itself, also with one trailing space added. */
  lemma StripPadded(a: string)
    requires a != [] && !IsSpace(a[0]) && !IsSpace(a[|a| - 1])
    ensures Strip(a) == a && Strip(a + " ") == a
  {
    var p := a + " ";
    assert p[0] == a[0];
    assert TrimStart(p) == p;
    assert p[..|p| - 1] == a;
    assert TrimEnd(p) == TrimEnd(a);
  }
}
