/**
 * The meaning of a declarative data-frame schema, restated from the way a
 * non-lazy `DataFrameSchema.validate` call treats it: every declared column
 * must be present (the first missing one is reported); then the columns are
 * validated one after another in declaration order, each by its nullability,
 * its uniqueness, its dtype and its element check, in that order; only when
 * every column passes are the frame-level checks run, in declaration order.
 * The first failure is the one error the call raises.
 */
module Schema {
  import opened Frames

  /** The declared dtype of a column. */
  datatype DType = Int64 | Str | DateTime | Float64

  function DTypeName(t: DType): string
  {
    match t
    case Int64 => "int64"
    case Str => "str"
    case DateTime => "datetime64[ns]"
    case Float64 => "float64"
  }

  /** A non-missing cell has the column's dtype. */
  predicate HasType(v: Value, t: DType)
  {
    match t
    case Int64 => v.VInt?
    case Str => v.VStr?
    case DateTime => v.VDate?
    case Float64 => v.VReal?
  }

  predicate IsNumber(v: Value)
  {
    v.VInt? || v.VReal?
  }

  /** The element-wise checks a column may carry. */
  datatype ElementCheck =
    | GreaterThanOrEqualTo(min: real)                 // built-in, inclusive floor
    | InRange(lo: real, hi: real)                     // built-in, inclusive at both ends
    | StrLength(minLen: nat, maxLen: nat)             // built-in, length in characters, inclusive
    | IsIn(allowed: seq<string>)                      // built-in, exact membership
    | NotBefore(bound: Date, error: string)           // custom: `x >= Timestamp(bound)`
    | DiffersFrom(other: string, error: string)       // custom: differs from the same row's `other` cell

  /** How an error names a failed element check: the built-in's name or the custom check's error text. */
  function CheckName(c: ElementCheck): string
  {
    match c
    case GreaterThanOrEqualTo(_) => "greater_than_or_equal_to"
    case InRange(_, _) => "in_range"
    case StrLength(_, _) => "str_length"
    case IsIn(_) => "isin"
    case NotBefore(_, error) => error
    case DiffersFrom(_, error) => error
  }

  /** The element check `c` accepts the non-missing cell `v` of row `i`. */
  predicate Holds(c: ElementCheck, df: Frame, i: nat, v: Value)
    requires i < df.nrows
  {
    match c
    case GreaterThanOrEqualTo(min) => IsNumber(v) && AsReal(v) >= min
    case InRange(lo, hi) => IsNumber(v) && lo <= AsReal(v) <= hi
    case StrLength(minLen, maxLen) => v.VStr? && minLen <= |v.s| <= maxLen
    case IsIn(allowed) => v.VStr? && v.s in allowed
    case NotBefore(bound, _) => v.VDate? && OnOrAfter(v.d, bound)
    case DiffersFrom(other, _) => other in df.columns && v != df.columns[other][i]
  }

  datatype ColumnSpec = ColumnSpec(name: string, dtype: DType, check: ElementCheck, unique: bool, nullable: bool)

  /** Checks over the whole frame. */
  datatype FrameCheck =
      /** `df.groupby(groupBy)[column].mean() >= threshold` for every group */
    | GroupMeanAtLeast(groupBy: string, column: string, threshold: real, error: string)
      /** `df[df[key].isin(df[ref].dropna())][column].min() >= threshold` */
    | ReferencedMinAtLeast(key: string, ref: string, column: string, threshold: real, error: string)

  datatype SchemaDef = SchemaDef(columns: seq<ColumnSpec>, checks: seq<FrameCheck>, name: string)

  /** The error a failed validation raises. */
  datatype SchemaError =
    | ColumnNotInFrame(column: string)
    | SeriesContainsNulls(column: string)
    | SeriesContainsDuplicates(column: string)
    | WrongDataType(column: string, expected: DType)
    | ElementCheckFailed(column: string, check: ElementCheck)
    | DataFrameCheckFailed(frameCheck: FrameCheck)

  datatype Result<+T> = Ok(value: T) | Err(error: SchemaError)

  // ---------------------------------------------------------------------------
  // Columns

  /** Row `i` of column `c` meets the column's rules: null only where allowed, otherwise typed and accepted. */
  predicate CellSatisfied(c: ColumnSpec, df: Frame, i: nat)
    requires c.name in df.columns && i < df.nrows
  {
    var v := df.columns[c.name][i];
    if v.VNull? then c.nullable else HasType(v, c.dtype) && Holds(c.check, df, i, v)
  }

  /** The declarative reading of one column's declaration. */
  predicate ColumnSatisfied(c: ColumnSpec, df: Frame)
    requires c.name in df.columns
  {
    && (c.unique ==> NoDuplicates(df.columns[c.name]))
    && forall i :: 0 <= i < df.nrows ==> CellSatisfied(c, df, i)
  }

  /**
   * Validation of one present column: nulls, then duplicates, then the dtype,
   * then the element check; the first of these to fail is reported.
   */
  function ColumnFailure(c: ColumnSpec, df: Frame): (r: Option<SchemaError>)
    requires c.name in df.columns
    ensures r.None? <==> ColumnSatisfied(c, df)
    ensures r.Some? ==> !r.value.DataFrameCheckFailed? && !r.value.ColumnNotInFrame? && r.value.column == c.name
    ensures r == Some(SeriesContainsNulls(c.name)) <==> !c.nullable && VNull in df.columns[c.name]
    ensures r == Some(SeriesContainsDuplicates(c.name)) <==>
      (c.nullable || VNull !in df.columns[c.name]) && c.unique && !NoDuplicates(df.columns[c.name])
    ensures r == Some(WrongDataType(c.name, c.dtype)) <==>
      && (c.nullable || VNull !in df.columns[c.name]) && (c.unique ==> NoDuplicates(df.columns[c.name]))
      && exists i :: 0 <= i < df.nrows && df.columns[c.name][i] != VNull && !HasType(df.columns[c.name][i], c.dtype)
    ensures r == Some(ElementCheckFailed(c.name, c.check)) <==>
      && (c.nullable || VNull !in df.columns[c.name]) && (c.unique ==> NoDuplicates(df.columns[c.name]))
      && (forall i :: 0 <= i < df.nrows && df.columns[c.name][i] != VNull ==> HasType(df.columns[c.name][i], c.dtype))
      && exists i :: 0 <= i < df.nrows && df.columns[c.name][i] != VNull && !Holds(c.check, df, i, df.columns[c.name][i])
  {
    var vs := df.columns[c.name];
    if !c.nullable && VNull in vs then
      var i :| 0 <= i < |vs| && vs[i] == VNull;
      assert !CellSatisfied(c, df, i);
      Some(SeriesContainsNulls(c.name))
    else if c.unique && !NoDuplicates(vs) then
      Some(SeriesContainsDuplicates(c.name))
    else if exists i :: 0 <= i < |vs| && vs[i] != VNull && !HasType(vs[i], c.dtype) then
      var i :| 0 <= i < |vs| && vs[i] != VNull && !HasType(vs[i], c.dtype);
      assert !CellSatisfied(c, df, i);
      Some(WrongDataType(c.name, c.dtype))
    else if exists i :: 0 <= i < |vs| && vs[i] != VNull && !Holds(c.check, df, i, vs[i]) then
      var i :| 0 <= i < |vs| && vs[i] != VNull && !Holds(c.check, df, i, vs[i]);
      assert !CellSatisfied(c, df, i);
      Some(ElementCheckFailed(c.name, c.check))
    else
      assert forall i :: 0 <= i < df.nrows ==> CellSatisfied(c, df, i);
      None
  }

  predicate AllPresent(cols: seq<ColumnSpec>, df: Frame)
  {
    forall k :: 0 <= k < |cols| ==> cols[k].name in df.columns
  }

  /** The first declared column missing from the frame, if any. */
  function FirstMissing(cols: seq<ColumnSpec>, df: Frame): (r: Option<string>)
    ensures r.None? <==> AllPresent(cols, df)
    ensures r.Some? ==> exists k :: 0 <= k < |cols| && cols[k].name == r.value && r.value !in df.columns
                                    && forall j :: 0 <= j < k ==> cols[j].name in df.columns
  {
    if cols == [] then None
    else if cols[0].name !in df.columns then Some(cols[0].name)
    else
      var r := FirstMissing(cols[1..], df);
      if r.Some? then
        var k :| 0 <= k < |cols[1..]| && cols[1..][k].name == r.value && r.value !in df.columns
                 && forall j :: 0 <= j < k ==> cols[1..][j].name in df.columns;
        assert forall j :: 0 < j < k + 1 ==> cols[j] == cols[1..][j - 1];
        r
      else
        assert forall k :: 0 < k < |cols| ==> cols[k] == cols[1..][k - 1];
        r
  }

  predicate AllSatisfied(cols: seq<ColumnSpec>, df: Frame)
    requires AllPresent(cols, df)
  {
    forall k :: 0 <= k < |cols| ==> ColumnSatisfied(cols[k], df)
  }

  /** The columns validated in declaration order: the first column that fails, with its error. */
  function FirstColumnFailure(cols: seq<ColumnSpec>, df: Frame): (r: Option<SchemaError>)
    requires AllPresent(cols, df)
    ensures r.None? <==> AllSatisfied(cols, df)
    ensures r.Some? ==> exists k :: 0 <= k < |cols| && ColumnFailure(cols[k], df) == r
                                    && forall j :: 0 <= j < k ==> ColumnSatisfied(cols[j], df)
  {
    if cols == [] then None
    else
      var head := ColumnFailure(cols[0], df);
      if head.Some? then head
      else
        assert AllPresent(cols[1..], df);
        var r := FirstColumnFailure(cols[1..], df);
        if r.Some? then
          var k :| 0 <= k < |cols[1..]| && ColumnFailure(cols[1..][k], df) == r
                   && forall j :: 0 <= j < k ==> ColumnSatisfied(cols[1..][j], df);
          assert forall j :: 0 < j < k + 1 ==> cols[j] == cols[1..][j - 1];
          r
        else
          assert forall k :: 0 < k < |cols| ==> cols[k] == cols[1..][k - 1];
          r
  }

  // ---------------------------------------------------------------------------
  // Frame-level checks

  /** A frame check holds on a frame (a check over a missing column fails, as its KeyError would). */
  predicate FrameCheckHolds(fc: FrameCheck, df: Frame)
  {
    match fc
    case GroupMeanAtLeast(groupBy, column, threshold, _) =>
      && groupBy in df.columns && column in df.columns
      && forall g :: g in ValueSet(df.columns[groupBy]) ==>
           AtLeast(Mean(Nums(Group(df.columns[groupBy], df.columns[column], g))), threshold)
    case ReferencedMinAtLeast(key, ref, column, threshold, _) =>
      && key in df.columns && ref in df.columns && column in df.columns
      && AtLeast(Min(Nums(MemberValues(df.columns[key], df.columns[column], ValueSet(df.columns[ref])))), threshold)
  }

  /** The frame checks run in declaration order: the first that fails. */
  function FirstFailingFrameCheck(fcs: seq<FrameCheck>, df: Frame): (r: Option<FrameCheck>)
    ensures r.None? <==> forall k :: 0 <= k < |fcs| ==> FrameCheckHolds(fcs[k], df)
    ensures r.Some? ==> exists k :: 0 <= k < |fcs| && fcs[k] == r.value && !FrameCheckHolds(r.value, df)
                                    && forall j :: 0 <= j < k ==> FrameCheckHolds(fcs[j], df)
  {
    if fcs == [] then None
    else if !FrameCheckHolds(fcs[0], df) then Some(fcs[0])
    else
      var r := FirstFailingFrameCheck(fcs[1..], df);
      assert forall k :: 0 < k < |fcs| ==> fcs[k] == fcs[1..][k - 1];
      if r.Some? then
        var k :| 0 <= k < |fcs[1..]| && fcs[1..][k] == r.value && !FrameCheckHolds(r.value, df)
                 && forall j :: 0 <= j < k ==> FrameCheckHolds(fcs[1..][j], df);
        assert fcs[k + 1] == r.value;
        assert forall j :: 0 < j < k + 1 ==> fcs[j] == fcs[1..][j - 1];
        r
      else
        r
  }

  // ---------------------------------------------------------------------------
  // The whole schema

  /** Everything the schema declares holds of the frame. */
  predicate Conforms(s: SchemaDef, df: Frame)
  {
    && AllPresent(s.columns, df)
    && AllSatisfied(s.columns, df)
    && forall k :: 0 <= k < |s.checks| ==> FrameCheckHolds(s.checks[k], df)
  }

  /** `schema.validate(df)` with `lazy=False`: the frame itself, or the first error. */
  function Validate(s: SchemaDef, df: Frame): (r: Result<Frame>)
    ensures r.Ok? <==> Conforms(s, df)
    ensures r.Ok? ==> r.value == df
    ensures r.Err? && r.error.ColumnNotInFrame? ==>
      exists k :: 0 <= k < |s.columns| && s.columns[k].name == r.error.column
                  && r.error.column !in df.columns && forall j :: 0 <= j < k ==> s.columns[j].name in df.columns
    ensures r.Err? && !r.error.ColumnNotInFrame? ==> AllPresent(s.columns, df)
    ensures r.Err? && !r.error.ColumnNotInFrame? && !r.error.DataFrameCheckFailed? ==>
      exists k :: 0 <= k < |s.columns| && ColumnFailure(s.columns[k], df) == Some(r.error)
                  && forall j :: 0 <= j < k ==> ColumnSatisfied(s.columns[j], df)
    ensures r.Err? && r.error.DataFrameCheckFailed? ==>
      && AllSatisfied(s.columns, df)
      && exists k :: 0 <= k < |s.checks| && s.checks[k] == r.error.frameCheck
                     && !FrameCheckHolds(r.error.frameCheck, df)
                     && forall j :: 0 <= j < k ==> FrameCheckHolds(s.checks[j], df)
  {
    match FirstMissing(s.columns, df)
    case Some(name) => Err(ColumnNotInFrame(name))
    case None =>
      match FirstColumnFailure(s.columns, df)
      case Some(e) => Err(e)
      case None =>
        match FirstFailingFrameCheck(s.checks, df)
        case Some(fc) => Err(DataFrameCheckFailed(fc))
        case None => Ok(df)
  }

  /** When every column before the `k`-th passes and the `k`-th fails, the `k`-th column's error is the one raised. */
  lemma ReportsFirstFailingColumn(s: SchemaDef, df: Frame, k: nat)
    requires AllPresent(s.columns, df) && k < |s.columns|
    requires forall j :: 0 <= j < k ==> ColumnSatisfied(s.columns[j], df)
    requires !ColumnSatisfied(s.columns[k], df)
    ensures ColumnFailure(s.columns[k], df).Some?
    ensures Validate(s, df) == Err(ColumnFailure(s.columns[k], df).value)
  {
    var r := Validate(s, df);
    assert !AllSatisfied(s.columns, df);
    assert r.Err? && !r.error.ColumnNotInFrame? && !r.error.DataFrameCheckFailed?;
  }

  /** When the columns before the `k`-th are present and the `k`-th is not, its absence is the error raised. */
  lemma ReportsFirstMissingColumn(s: SchemaDef, df: Frame, k: nat)
    requires k < |s.columns| && s.columns[k].name !in df.columns
    requires forall j :: 0 <= j < k ==> s.columns[j].name in df.columns
    ensures Validate(s, df) == Err(ColumnNotInFrame(s.columns[k].name))
  {
    var r := Validate(s, df);
    assert r.Err? && r.error.ColumnNotInFrame?;
  }

  /** When the columns pass, the frame checks before the `k`-th hold and the `k`-th does not, the `k`-th is the error raised. */
  lemma ReportsFirstFailingFrameCheck(s: SchemaDef, df: Frame, k: nat)
    requires AllPresent(s.columns, df) && AllSatisfied(s.columns, df) && k < |s.checks|
    requires forall j :: 0 <= j < k ==> FrameCheckHolds(s.checks[j], df)
    requires !FrameCheckHolds(s.checks[k], df)
    ensures Validate(s, df) == Err(DataFrameCheckFailed(s.checks[k]))
  {
    var r := Validate(s, df);
    assert r.Err? && r.error.DataFrameCheckFailed?;
    var k' :| 0 <= k' < |s.checks| && s.checks[k'] == r.error.frameCheck
              && !FrameCheckHolds(r.error.frameCheck, df)
              && forall j :: 0 <= j < k' ==> FrameCheckHolds(s.checks[j], df);
    assert k' == k;
  }

  /**
   * Whether a column passes depends only on its own cells and, for a
   * cross-column check, on the cells of the column it compares with.
   */
  lemma ColumnSatisfiedLocal(c: ColumnSpec, df: Frame, df': Frame)
    requires c.name in df.columns && c.name in df'.columns && df.nrows == df'.nrows
    requires df.columns[c.name] == df'.columns[c.name]
    requires c.check.DiffersFrom? ==>
      (c.check.other in df.columns <==> c.check.other in df'.columns)
      && (c.check.other in df.columns ==> df.columns[c.check.other] == df'.columns[c.check.other])
    ensures ColumnSatisfied(c, df) <==> ColumnSatisfied(c, df')
  {
    assert forall i :: 0 <= i < df.nrows ==> (CellSatisfied(c, df, i) <==> CellSatisfied(c, df', i));
  }

  // ---------------------------------------------------------------------------
  // Error messages

  /** `w` occurs in `s` as a contiguous piece. */
  predicate Mentions(s: string, w: string)
  {
    exists i :: 0 <= i <= |s| && w <= s[i..]
  }

  /** A piece of a piece of `s` is a piece of `s`. */
  lemma MentionsWithin(s: string, w: string, u: string)
    requires Mentions(s, w) && Mentions(w, u)
    ensures Mentions(s, u)
  {
    var i :| 0 <= i <= |s| && w <= s[i..];
    var j :| 0 <= j <= |w| && u <= w[j..];
    assert u <= s[i + j..];
  }

  function Enclose(before: string, w: string, after: string): (r: string)
    ensures Mentions(r, w)
  {
    assert w <= (before + w + after)[|before|..];
    before + w + after
  }

  /** `str(error)`: the message names the offending column, or carries the frame check's error text. */
  function Message(schemaName: string, e: SchemaError): (m: string)
    ensures !e.DataFrameCheckFailed? ==> Mentions(m, e.column)
    ensures e.DataFrameCheckFailed? ==> Mentions(m, e.frameCheck.error)
    ensures e.WrongDataType? ==> Mentions(m, DTypeName(e.expected))
    ensures e.ElementCheckFailed? ==> Mentions(m, CheckName(e.check))
    ensures e.SeriesContainsDuplicates? ==> Mentions(m, "unique")
  {
    match e
    case ColumnNotInFrame(c) => Enclose("column '", c, "' not in dataframe")
    case SeriesContainsNulls(c) => Enclose("non-nullable series '", c, "' contains null values")
    case SeriesContainsDuplicates(c) =>
      var m := "series '" + c + "' contains duplicate values (field_uniqueness)";
      assert m == Enclose("series '", c, "' contains duplicate values (field_uniqueness)");
      assert m == Enclose("series '" + c + "' contains duplicate values (field_", "unique", "ness)");
      m
    case WrongDataType(c, t) =>
      var m := "expected series '" + c + "' to have type " + DTypeName(t);
      assert m == Enclose("expected series '", c, "' to have type " + DTypeName(t));
      assert m == Enclose("expected series '" + c + "' to have type ", DTypeName(t), "");
      m
    case ElementCheckFailed(c, chk) =>
      var m := "Column '" + c + "' failed element-wise validator: " + CheckName(chk);
      assert m == Enclose("Column '", c, "' failed element-wise validator: " + CheckName(chk));
      assert m == Enclose("Column '" + c + "' failed element-wise validator: ", CheckName(chk), "");
      m
    case DataFrameCheckFailed(fc) =>
      Enclose("DataFrameSchema '" + schemaName + "' failed dataframe validator: ", fc.error, "")
  }
}
