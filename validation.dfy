/**
 * `validate_employee_data`: validate a frame against the employee schema and
 * turn the result into the tuple `(success, validated_df, error_msg, summary)`.
 * A schema error becomes its message; any other exception raised inside the
 * call becomes a message with a fixed prefix; nothing propagates.
 */
module Validation {
  import opened Frames
  import opened Schema
  import opened EmployeeSchema

  const UnexpectedErrorPrefix := "予期しないエラーが発生しました: "

  /**
   * Whether some exception other than a schema error is raised inside the
   * call (for example by building the schema), with its text.
   */
  datatype Fault = NoFault | Raised(text: string)

  /** The summary of a validated frame. */
  datatype Summary = Summary(
    recordCount: nat,
    departments: map<string, nat>,
    avgAge: Float,
    avgSalary: Float,
    avgScore: Float)

  /** The tuple `(success, validated_df, error_msg, summary)`. */
  datatype Outcome = Outcome(success: bool, table: Option<Frame>, message: Option<string>, summary: Option<Summary>)

  function DepartmentNames(vs: seq<Value>): (names: set<string>)
    ensures forall d :: d in names <==> VStr(d) in vs
  {
    set i | 0 <= i < |vs| && vs[i].VStr? :: vs[i].s
  }

  /** Record count, head-count per department (`value_counts`), and the means of age, salary and score. */
  function Summarize(df: Frame): (s: Summary)
    requires HasEmployeeColumns(df)
    ensures s.recordCount == df.nrows
    ensures forall d :: d in s.departments <==> VStr(d) in Depts(df)
    ensures forall d :: d in s.departments ==> s.departments[d] == |Group(Depts(df), Depts(df), VStr(d))|
  {
    Summary(
      df.nrows,
      map d | d in DepartmentNames(Depts(df)) :: Occurrences(Depts(df), VStr(d)),
      Mean(Nums(df.columns["age"])),
      Mean(Nums(Salaries(df))),
      Mean(Nums(Scores(df))))
  }

  function Failed(message: string): Outcome
  {
    Outcome(false, None, Some(message), None)
  }

  /** `validate_employee_data(df)`, with `fault` saying whether an unexpected exception is raised on the way. */
  function ValidateEmployeeData(df: Frame, fault: Fault): (r: Outcome)
    ensures r.success <==> r.message.None?
    ensures r.table.Some? <==> r.success
    ensures r.summary.Some? <==> r.success
    ensures r.success ==> r.table == Some(df) && r.summary.value.recordCount == df.nrows
    ensures fault.Raised? ==> r == Failed(UnexpectedErrorPrefix + fault.text)
    ensures fault.NoFault? && Validate(CreateEmployeeSchema(), df).Err? ==>
      r == Failed(Message(CreateEmployeeSchema().name, Validate(CreateEmployeeSchema(), df).error))
  {
    match fault
    case Raised(text) => Failed(UnexpectedErrorPrefix + text)
    case NoFault =>
      var schema := CreateEmployeeSchema();
      match Validate(schema, df)
      case Ok(validated) =>
        PresenceMeansColumns(validated);
        Outcome(true, Some(validated), None, Some(Summarize(validated)))
      case Err(e) => Failed(Message(schema.name, e))
  }

  // ---------------------------------------------------------------------------
  // What the outcome tells the caller

  /** Validation succeeds exactly on the tables that meet every employee rule. */
  lemma SuccessIffValid(df: Frame)
    ensures ValidateEmployeeData(df, NoFault).success <==> EmployeeTableValid(df)
  {
    ValidateIffEmployeeTableValid(df);
  }

  /** An unexpected exception never escapes: the call fails with the prefixed text of the exception. */
  lemma UnexpectedErrorReported(df: Frame, text: string)
    ensures !ValidateEmployeeData(df, Raised(text)).success
    ensures ValidateEmployeeData(df, Raised(text)).message.Some?
    ensures Mentions(ValidateEmployeeData(df, Raised(text)).message.value, UnexpectedErrorPrefix)
    ensures Mentions(ValidateEmployeeData(df, Raised(text)).message.value, text)
  {
    var m := UnexpectedErrorPrefix + text;
    assert UnexpectedErrorPrefix <= m[0..];
    assert text <= m[|UnexpectedErrorPrefix|..];
  }

  /** A missing column is reported by name: the first declared column the frame lacks. */
  lemma MissingColumnNamed(df: Frame, k: nat)
    requires k < |ColumnNames| && ColumnNames[k] !in df.columns
    requires forall j :: 0 <= j < k ==> ColumnNames[j] in df.columns
    ensures ValidateEmployeeData(df, NoFault) ==
      Failed(Message(CreateEmployeeSchema().name, ColumnNotInFrame(ColumnNames[k])))
    ensures Mentions(ValidateEmployeeData(df, NoFault).message.value, ColumnNames[k])
  {
    ReportsFirstMissingColumn(CreateEmployeeSchema(), df, k);
  }

  /**
   * A column-level violation is reported before any frame check runs, and the
   * message names the first declared column whose rules the frame breaks.
   */
  lemma ColumnViolationNamed(df: Frame, k: nat)
    requires HasEmployeeColumns(df) && k < |ColumnNames|
    requires forall j :: 0 <= j < k ==> ColumnSatisfied(CreateEmployeeSchema().columns[j], df)
    requires !ColumnSatisfied(CreateEmployeeSchema().columns[k], df)
    ensures !ValidateEmployeeData(df, NoFault).success
    ensures Mentions(ValidateEmployeeData(df, NoFault).message.value, ColumnNames[k])
  {
    var s := CreateEmployeeSchema();
    PresenceMeansColumns(df);
    ReportsFirstFailingColumn(s, df, k);
  }

  // ---------------------------------------------------------------------------
  // The summary of a validated table

  /** The sum of the head-counts of the departments listed in `e`. */
  function SumCounts(m: map<string, nat>, e: seq<string>): int
    requires forall d :: d in e ==> d in m
  {
    if e == [] then 0 else m[e[0]] + SumCounts(m, e[1..])
  }

  function Strs(e: seq<string>): (r: seq<Value>)
    ensures |r| == |e| && forall k :: 0 <= k < |e| ==> r[k] == VStr(e[k])
  {
    seq(|e|, k requires 0 <= k < |e| => VStr(e[k]))
  }

  lemma {:induction false} SumCountsIsGroupSizes(df: Frame, e: seq<string>)
    requires HasEmployeeColumns(df)
    requires forall d :: d in e ==> d in Summarize(df).departments
    ensures SumCounts(Summarize(df).departments, e) == GroupSizes(Depts(df), Depts(df), Strs(e))
  {
    if e != [] {
      assert Strs(e)[1..] == Strs(e[1..]);
      SumCountsIsGroupSizes(df, e[1..]);
    }
  }

  /**
   * On success the head-counts per department add up to the record count,
   * summed over any listing of the departments without repeats.
   */
  lemma DepartmentCountsSum(df: Frame, e: seq<string>)
    requires ValidateEmployeeData(df, NoFault).success
    requires NoDuplicates(e)
    requires forall d :: d in e <==> d in ValidateEmployeeData(df, NoFault).summary.value.departments
    ensures SumCounts(ValidateEmployeeData(df, NoFault).summary.value.departments, e)
            == ValidateEmployeeData(df, NoFault).summary.value.recordCount
  {
    SuccessIffValid(df);
    var depts := Depts(df);
    forall i | 0 <= i < |depts| ensures depts[i] in Strs(e) {
      assert RowValid(df, i);
      assert depts[i].s in Summarize(df).departments;
      var k :| 0 <= k < |e| && e[k] == depts[i].s;
      assert Strs(e)[k] == depts[i];
    }
    SumCountsIsGroupSizes(df, e);
    GroupsPartition(depts, depts, Strs(e));
  }

  /** A validated table's salaries add up to at least 300000 per row, because every department's do. */
  lemma SalaryTotalAtLeast(df: Frame)
    requires EmployeeTableValid(df)
    ensures IntTotal(Salaries(df)) >= 300000 * df.nrows
  {
    var e := Distinct(Depts(df));
    forall g | g in e
      ensures IntTotal(Group(Depts(df), Salaries(df), g)) >= 300000 * |Group(Depts(df), Salaries(df), g)|
    {
      var i :| 0 <= i < df.nrows && Depts(df)[i] == g;
    }
    forall i | 0 <= i < df.nrows ensures Depts(df)[i] in e {
      assert RowValid(df, i);
    }
    GroupsPartition(Depts(df), Salaries(df), e);
    GroupTotalsAtLeast(Depts(df), Salaries(df), e, 300000);
  }

  /** Every department of a valid table is an allowed one and has at least one member. */
  lemma DepartmentsOfValidTable(df: Frame)
    requires EmployeeTableValid(df)
    ensures forall d :: d in Summarize(df).departments ==> d in Departments && Summarize(df).departments[d] > 0
  {
    forall d | d in Summarize(df).departments
      ensures d in Departments && Summarize(df).departments[d] > 0
    {
      var i :| 0 <= i < |Depts(df)| && Depts(df)[i] == VStr(d);
      assert RowValid(df, i);
      MemberValuesMember(Depts(df), Depts(df), {VStr(d)}, VStr(d));
    }
  }

  /** The ages of a valid table average within [18, 65]. */
  lemma AgesOfValidTable(df: Frame)
    requires EmployeeTableValid(df) && df.nrows > 0
    ensures Summarize(df).avgAge.Num? && 18.0 <= Summarize(df).avgAge.v <= 65.0
  {
    var ages := df.columns["age"];
    forall i | 0 <= i < |ages| ensures ages[i].VInt? {
      assert RowValid(df, i);
    }
    NumsOfInts(ages);
    forall x | x in Nums(ages) ensures 18.0 <= x <= 65.0 {
      NumsMember(ages, x);
      var i :| 0 <= i < |ages| && !ages[i].VNull? && AsReal(ages[i]) == x;
      assert RowValid(df, i);
    }
    MeanBounds(Nums(ages), 18.0, 65.0);
  }

  /** The performance scores of a valid table average within [1.0, 5.0]. */
  lemma ScoresOfValidTable(df: Frame)
    requires EmployeeTableValid(df) && df.nrows > 0
    ensures Summarize(df).avgScore.Num? && 1.0 <= Summarize(df).avgScore.v <= 5.0
  {
    var scores := Scores(df);
    assert RowValid(df, 0);
    NumsMember(scores, AsReal(scores[0]));
    forall x | x in Nums(scores) ensures 1.0 <= x <= 5.0 {
      NumsMember(scores, x);
      var i :| 0 <= i < |scores| && !scores[i].VNull? && AsReal(scores[i]) == x;
      assert RowValid(df, i);
    }
    MeanBounds(Nums(scores), 1.0, 5.0);
  }

  /** The salaries of a valid table average at least 300000, because every department's do. */
  lemma SalariesOfValidTable(df: Frame)
    requires EmployeeTableValid(df) && df.nrows > 0
    ensures AtLeast(Summarize(df).avgSalary, 300000.0)
  {
    var sals := Salaries(df);
    forall i | 0 <= i < |sals| ensures sals[i].VInt? {
      assert RowValid(df, i);
    }
    SalaryTotalAtLeast(df);
    IntMeanAtLeast(sals, 300000);
  }

  /**
   * The three averages of a valid table are arithmetic means over all of its
   * rows: no cell of these columns is missing, so none is skipped.
   */
  lemma MeansOverAllRows(df: Frame)
    requires EmployeeTableValid(df) && df.nrows > 0
    ensures Summarize(df).avgAge == Num((IntTotal(df.columns["age"]) as real) / (df.nrows as real))
    ensures Summarize(df).avgSalary == Num((IntTotal(Salaries(df)) as real) / (df.nrows as real))
    ensures |Nums(Scores(df))| == df.nrows
    ensures forall i :: 0 <= i < df.nrows ==> Nums(Scores(df))[i] == AsReal(Scores(df)[i])
    ensures Summarize(df).avgScore == Num(Sum(Nums(Scores(df))) / (df.nrows as real))
  {
    var ages, sals, scores := df.columns["age"], Salaries(df), Scores(df);
    forall i | 0 <= i < df.nrows ensures ages[i].VInt? && sals[i].VInt? && scores[i].VReal? {
      assert RowValid(df, i);
    }
    MeanOfInts(ages);
    MeanOfInts(sals);
    NumsOfPresent(scores);
  }

  /**
   * The summary of a validated table: at least one record (a table nobody
   * manages is rejected), only allowed departments, ages averaging within
   * [18, 65], scores within [1.0, 5.0], and an overall mean salary of at least
   * 300000.
   */
  lemma SummaryOfValidatedTable(df: Frame)
    requires ValidateEmployeeData(df, NoFault).success
    ensures var s := ValidateEmployeeData(df, NoFault).summary.value;
      && s.recordCount == df.nrows > 0
      && (forall d :: d in s.departments ==> d in Departments && s.departments[d] > 0)
      && s.avgAge.Num? && 18.0 <= s.avgAge.v <= 65.0
      && s.avgScore.Num? && 1.0 <= s.avgScore.v <= 5.0
      && AtLeast(s.avgSalary, 300000.0)
  {
    SuccessIffValid(df);
    DepartmentsOfValidTable(df);
    AgesOfValidTable(df);
    ScoresOfValidTable(df);
    SalariesOfValidTable(df);
  }
}
