/**
 * The employee-table schema: eight typed columns with their element checks,
 * uniqueness of `employee_id`, and two frame-level checks (every department's
 * mean salary, and the lowest score among employees who manage someone).
 *
 * `CreateEmployeeSchema` is the declaration; `EmployeeTableValid` states the
 * same rules directly, row by row and without division; the lemma
 * `ValidateIffEmployeeTableValid` shows that validating against the
 * declaration accepts exactly the tables the direct statement allows.
 */
module EmployeeSchema {
  import opened Frames
  import opened Schema

  const Departments: seq<string> := ["IT", "HR", "Finance", "Marketing", "Sales", "R&D"]
  const JoinDateFloor: Date := Date(2000, 1, 1)

  const JoinDateError := "入社日は2000年1月1日以降である必要があります"
  const ManagerIdError := "上司IDは自分自身のIDと異なる必要があります"
  const DepartmentMeanError := "各部署の平均給与は300000円以上である必要があります"
  const ManagerScoreError := "管理職の評価スコアは3.5以上である必要があります"

  const EmployeeIdColumn := ColumnSpec("employee_id", Int64, GreaterThanOrEqualTo(1000.0), true, false)
  const NameColumn := ColumnSpec("name", Str, StrLength(2, 20), false, false)
  const AgeColumn := ColumnSpec("age", Int64, InRange(18.0, 65.0), false, false)
  const DepartmentColumn := ColumnSpec("department", Str, IsIn(Departments), false, false)
  const SalaryColumn := ColumnSpec("salary", Int64, GreaterThanOrEqualTo(250000.0), false, false)
  const JoinDateColumn := ColumnSpec("join_date", DateTime, NotBefore(JoinDateFloor, JoinDateError), false, false)
  const ManagerIdColumn := ColumnSpec("manager_id", Int64, DiffersFrom("employee_id", ManagerIdError), false, true)
  const ScoreColumn := ColumnSpec("performance_score", Float64, InRange(1.0, 5.0), false, false)

  const DepartmentMeanCheck := GroupMeanAtLeast("department", "salary", 300000.0, DepartmentMeanError)
  const ManagerScoreCheck := ReferencedMinAtLeast("employee_id", "manager_id", "performance_score", 3.5, ManagerScoreError)

  const ColumnNames: seq<string> :=
    ["employee_id", "name", "age", "department", "salary", "join_date", "manager_id", "performance_score"]

  /** The schema `create_employee_schema` builds. */
  function CreateEmployeeSchema(): (s: SchemaDef)
    ensures |s.columns| == |ColumnNames| && forall k :: 0 <= k < |s.columns| ==> s.columns[k].name == ColumnNames[k]
    ensures NoDuplicates(ColumnNames)
    ensures forall k :: 0 <= k < |s.columns| ==> (s.columns[k].nullable <==> s.columns[k].name == "manager_id")
    ensures forall k :: 0 <= k < |s.columns| ==> (s.columns[k].unique <==> s.columns[k].name == "employee_id")
    ensures s.checks == [DepartmentMeanCheck, ManagerScoreCheck]
  {
    SchemaDef(
      [EmployeeIdColumn, NameColumn, AgeColumn, DepartmentColumn,
       SalaryColumn, JoinDateColumn, ManagerIdColumn, ScoreColumn],
      [DepartmentMeanCheck, ManagerScoreCheck],
      "社員情報スキーマ")
  }

  // ---------------------------------------------------------------------------
  // The rules stated directly

  predicate HasEmployeeColumns(df: Frame)
  {
    forall c :: c in ColumnNames ==> c in df.columns
  }

  function Ids(df: Frame): seq<Value> requires HasEmployeeColumns(df) { df.columns["employee_id"] }
  function Depts(df: Frame): seq<Value> requires HasEmployeeColumns(df) { df.columns["department"] }
  function Salaries(df: Frame): seq<Value> requires HasEmployeeColumns(df) { df.columns["salary"] }
  function Managers(df: Frame): seq<Value> requires HasEmployeeColumns(df) { df.columns["manager_id"] }
  function Scores(df: Frame): seq<Value> requires HasEmployeeColumns(df) { df.columns["performance_score"] }

  predicate EmployeeIdOk(v: Value) { v.VInt? && v.i >= 1000 }
  predicate NameOk(v: Value) { v.VStr? && 2 <= |v.s| <= 20 }
  predicate AgeOk(v: Value) { v.VInt? && 18 <= v.i <= 65 }
  predicate DepartmentOk(v: Value) { v.VStr? && v.s in Departments }
  predicate SalaryOk(v: Value) { v.VInt? && v.i >= 250000 }
  predicate JoinDateOk(v: Value) { v.VDate? && OnOrAfter(v.d, JoinDateFloor) }
  /** No manager, or a manager other than the employee. */
  predicate ManagerOk(m: Value, id: Value) { m.VNull? || (m.VInt? && m != id) }
  predicate ScoreOk(v: Value) { v.VReal? && 1.0 <= v.r <= 5.0 }

  /** Every cell of row `i` meets its column's rule. */
  predicate RowValid(df: Frame, i: nat)
    requires HasEmployeeColumns(df) && i < df.nrows
  {
    && EmployeeIdOk(df.columns["employee_id"][i])
    && NameOk(df.columns["name"][i])
    && AgeOk(df.columns["age"][i])
    && DepartmentOk(df.columns["department"][i])
    && SalaryOk(df.columns["salary"][i])
    && JoinDateOk(df.columns["join_date"][i])
    && ManagerOk(df.columns["manager_id"][i], df.columns["employee_id"][i])
    && ScoreOk(df.columns["performance_score"][i])
  }

  predicate RowsValid(df: Frame)
    requires HasEmployeeColumns(df)
  {
    forall i :: 0 <= i < df.nrows ==> RowValid(df, i)
  }

  predicate IdsUnique(df: Frame)
    requires HasEmployeeColumns(df)
  {
    forall i, j :: 0 <= i < j < df.nrows ==> Ids(df)[i] != Ids(df)[j]
  }

  /** The department of every row has a salary total of at least 300000 per head. */
  predicate DepartmentSalariesOk(df: Frame)
    requires HasEmployeeColumns(df)
  {
    forall i :: 0 <= i < df.nrows ==>
      IntTotal(Group(Depts(df), Salaries(df), Depts(df)[i])) >= 300000 * |Group(Depts(df), Salaries(df), Depts(df)[i])|
  }

  /** Row `i` is the employee some row names as its manager. */
  predicate IsManager(df: Frame, i: nat)
    requires HasEmployeeColumns(df) && i < df.nrows
  {
    exists j :: 0 <= j < df.nrows && Managers(df)[j] != VNull && Managers(df)[j] == Ids(df)[i]
  }

  /**
   * Someone manages someone, and every such manager scores at least 3.5. The
   * first conjunct is the minimum of an empty selection being NaN, which
   * fails the comparison.
   */
  predicate ManagerScoresOk(df: Frame)
    requires HasEmployeeColumns(df)
  {
    && (exists i :: 0 <= i < df.nrows && IsManager(df, i))
    && forall i :: 0 <= i < df.nrows && IsManager(df, i) ==> AsReal(Scores(df)[i]) >= 3.5
  }

  predicate EmployeeTableValid(df: Frame)
  {
    && HasEmployeeColumns(df)
    && RowsValid(df)
    && IdsUnique(df)
    && DepartmentSalariesOk(df)
    && ManagerScoresOk(df)
  }

  // ---------------------------------------------------------------------------
  // The declaration means the direct statement

  lemma PresenceMeansColumns(df: Frame)
    ensures AllPresent(CreateEmployeeSchema().columns, df) <==> HasEmployeeColumns(df)
  {
    var s := CreateEmployeeSchema();
    if AllPresent(s.columns, df) {
      forall c | c in ColumnNames ensures c in df.columns {
        var k :| 0 <= k < |ColumnNames| && ColumnNames[k] == c;
        assert s.columns[k].name == c;
      }
    }
  }

  lemma IdColumnMeans(df: Frame)
    requires HasEmployeeColumns(df)
    ensures ColumnSatisfied(EmployeeIdColumn, df) <==>
      NoDuplicates(Ids(df)) && forall i :: 0 <= i < df.nrows ==> EmployeeIdOk(Ids(df)[i])
  {
    assert forall i :: 0 <= i < df.nrows ==> (CellSatisfied(EmployeeIdColumn, df, i) <==> EmployeeIdOk(Ids(df)[i]));
  }

  lemma CellColumnsMean(df: Frame, i: nat)
    requires HasEmployeeColumns(df) && i < df.nrows
    ensures CellSatisfied(NameColumn, df, i) <==> NameOk(df.columns["name"][i])
    ensures CellSatisfied(AgeColumn, df, i) <==> AgeOk(df.columns["age"][i])
    ensures CellSatisfied(DepartmentColumn, df, i) <==> DepartmentOk(df.columns["department"][i])
    ensures CellSatisfied(SalaryColumn, df, i) <==> SalaryOk(df.columns["salary"][i])
    ensures CellSatisfied(JoinDateColumn, df, i) <==> JoinDateOk(df.columns["join_date"][i])
    ensures CellSatisfied(ManagerIdColumn, df, i) <==> ManagerOk(Managers(df)[i], Ids(df)[i])
    ensures CellSatisfied(ScoreColumn, df, i) <==> ScoreOk(Scores(df)[i])
  {
  }

  /** The eight column declarations together say: every row is valid and no id repeats. */
  lemma ColumnsMeanRows(df: Frame)
    requires HasEmployeeColumns(df)
    ensures AllPresent(CreateEmployeeSchema().columns, df)
    ensures AllSatisfied(CreateEmployeeSchema().columns, df) <==> RowsValid(df) && IdsUnique(df)
  {
    PresenceMeansColumns(df);
    var s := CreateEmployeeSchema();
    IdColumnMeans(df);
    forall i | 0 <= i < df.nrows {
      CellColumnsMean(df, i);
    }
    assert NoDuplicates(Ids(df)) <==> IdsUnique(df);
    if AllSatisfied(s.columns, df) {
      assert ColumnSatisfied(s.columns[0], df) && ColumnSatisfied(s.columns[1], df);
      assert ColumnSatisfied(s.columns[2], df) && ColumnSatisfied(s.columns[3], df);
      assert ColumnSatisfied(s.columns[4], df) && ColumnSatisfied(s.columns[5], df);
      assert ColumnSatisfied(s.columns[6], df) && ColumnSatisfied(s.columns[7], df);
      forall i | 0 <= i < df.nrows ensures RowValid(df, i) {
        assert CellSatisfied(s.columns[1], df, i) && CellSatisfied(s.columns[2], df, i);
        assert CellSatisfied(s.columns[3], df, i) && CellSatisfied(s.columns[4], df, i);
        assert CellSatisfied(s.columns[5], df, i) && CellSatisfied(s.columns[6], df, i);
        assert CellSatisfied(s.columns[7], df, i);
      }
    }
    if RowsValid(df) && IdsUnique(df) {
      forall k | 0 <= k < |s.columns| ensures ColumnSatisfied(s.columns[k], df) {
        forall i | 0 <= i < df.nrows ensures CellSatisfied(s.columns[k], df, i) {
          assert RowValid(df, i);
        }
      }
    }
  }

  /** On valid rows, a department's mean salary reaches 300000 exactly when its total reaches 300000 per head. */
  lemma DepartmentMeanMeans(df: Frame, i: nat)
    requires HasEmployeeColumns(df) && RowsValid(df) && i < df.nrows
    ensures AtLeast(Mean(Nums(Group(Depts(df), Salaries(df), Depts(df)[i]))), 300000.0) <==>
      IntTotal(Group(Depts(df), Salaries(df), Depts(df)[i])) >= 300000 * |Group(Depts(df), Salaries(df), Depts(df)[i])|
  {
    var g := Group(Depts(df), Salaries(df), Depts(df)[i]);
    assert forall j :: 0 <= j < df.nrows ==> !Salaries(df)[j].VNull? && Salaries(df)[j].VInt? by {
      forall j | 0 <= j < df.nrows ensures Salaries(df)[j].VInt? { assert RowValid(df, j); }
    }
    MemberValuesKind(Depts(df), Salaries(df), {Depts(df)[i]}, true);
    NumsOfInts(g);
    MemberValuesMember(Depts(df), Salaries(df), {Depts(df)[i]}, Salaries(df)[i]);
    assert |g| > 0;
    MeanAtLeast(Nums(g), 300000.0);
  }

  lemma DepartmentCheckMeans(df: Frame)
    requires HasEmployeeColumns(df) && RowsValid(df)
    ensures FrameCheckHolds(DepartmentMeanCheck, df) <==> DepartmentSalariesOk(df)
  {
    if DepartmentSalariesOk(df) {
      forall g | g in ValueSet(Depts(df))
        ensures AtLeast(Mean(Nums(Group(Depts(df), Salaries(df), g))), 300000.0)
      {
        var i :| 0 <= i < |Depts(df)| && Depts(df)[i] == g;
        DepartmentMeanMeans(df, i);
      }
    }
    if FrameCheckHolds(DepartmentMeanCheck, df) {
      forall i | 0 <= i < df.nrows
        ensures IntTotal(Group(Depts(df), Salaries(df), Depts(df)[i])) >= 300000 * |Group(Depts(df), Salaries(df), Depts(df)[i])|
      {
        DepartmentMeanMeans(df, i);
        assert RowValid(df, i);
        assert Depts(df)[i] in ValueSet(Depts(df));
      }
    }
  }

  /** On valid rows, the scores the manager check selects are exactly the managers' scores. */
  lemma ManagerSelectionMeans(df: Frame, x: real)
    requires HasEmployeeColumns(df) && RowsValid(df)
    ensures x in Nums(MemberValues(Ids(df), Scores(df), ValueSet(Managers(df)))) <==>
      exists i :: 0 <= i < df.nrows && IsManager(df, i) && AsReal(Scores(df)[i]) == x
  {
    var sel := MemberValues(Ids(df), Scores(df), ValueSet(Managers(df)));
    forall i | 0 <= i < df.nrows ensures Ids(df)[i] in ValueSet(Managers(df)) <==> IsManager(df, i) {
      assert RowValid(df, i);
    }
    NumsMember(sel, x);
    if x in Nums(sel) {
      var j :| 0 <= j < |sel| && !sel[j].VNull? && AsReal(sel[j]) == x;
      MemberValuesMember(Ids(df), Scores(df), ValueSet(Managers(df)), sel[j]);
    }
    if exists i :: 0 <= i < df.nrows && IsManager(df, i) && AsReal(Scores(df)[i]) == x {
      var i :| 0 <= i < df.nrows && IsManager(df, i) && AsReal(Scores(df)[i]) == x;
      assert RowValid(df, i);
      MemberValuesMember(Ids(df), Scores(df), ValueSet(Managers(df)), Scores(df)[i]);
      var j :| 0 <= j < |sel| && sel[j] == Scores(df)[i];
    }
  }

  lemma ManagerCheckMeans(df: Frame)
    requires HasEmployeeColumns(df) && RowsValid(df)
    ensures FrameCheckHolds(ManagerScoreCheck, df) <==> ManagerScoresOk(df)
  {
    var xs := Nums(MemberValues(Ids(df), Scores(df), ValueSet(Managers(df))));
    MinAtLeast(xs, 3.5);
    forall x ensures x in xs <==> exists i :: 0 <= i < df.nrows && IsManager(df, i) && AsReal(Scores(df)[i]) == x {
      ManagerSelectionMeans(df, x);
    }
    if FrameCheckHolds(ManagerScoreCheck, df) {
      assert AtLeast(Min(xs), 3.5);
      assert xs[0] in xs;
      forall i | 0 <= i < df.nrows && IsManager(df, i) ensures AsReal(Scores(df)[i]) >= 3.5 {
        assert AsReal(Scores(df)[i]) in xs;
      }
    }
    if ManagerScoresOk(df) {
      var i :| 0 <= i < df.nrows && IsManager(df, i);
      assert AsReal(Scores(df)[i]) in xs;
      forall x | x in xs ensures x >= 3.5 {
        var j :| 0 <= j < df.nrows && IsManager(df, j) && AsReal(Scores(df)[j]) == x;
      }
      assert AtLeast(Min(xs), 3.5);
    }
  }

  /**
   * Validating a frame against the employee schema succeeds exactly when all
   * eight columns are present, every row is valid, the ids are unique, every
   * department's salaries average at least 300000, and someone is a manager
   * and every manager scores at least 3.5.
   */
  lemma ValidateIffEmployeeTableValid(df: Frame)
    ensures Validate(CreateEmployeeSchema(), df).Ok? <==> EmployeeTableValid(df)
  {
    PresenceMeansColumns(df);
    if HasEmployeeColumns(df) {
      ColumnsMeanRows(df);
      if RowsValid(df) {
        DepartmentCheckMeans(df);
        ManagerCheckMeans(df);
        var s := CreateEmployeeSchema();
        assert s.checks[0] == DepartmentMeanCheck && s.checks[1] == ManagerScoreCheck;
        assert (forall k :: 0 <= k < |s.checks| ==> FrameCheckHolds(s.checks[k], df)) <==>
          FrameCheckHolds(DepartmentMeanCheck, df) && FrameCheckHolds(ManagerScoreCheck, df);
      }
    }
  }

  /**
   * A table whose cells and identifiers are fine but which breaks an
   * aggregate rule is rejected by the first frame check it breaks: the
   * department means are checked before the manager scores.
   */
  lemma FrameRuleViolationReported(df: Frame)
    requires HasEmployeeColumns(df) && RowsValid(df) && IdsUnique(df)
    ensures !DepartmentSalariesOk(df) ==>
      Validate(CreateEmployeeSchema(), df) == Err(DataFrameCheckFailed(DepartmentMeanCheck))
    ensures DepartmentSalariesOk(df) && !ManagerScoresOk(df) ==>
      Validate(CreateEmployeeSchema(), df) == Err(DataFrameCheckFailed(ManagerScoreCheck))
  {
    var s := CreateEmployeeSchema();
    ColumnsMeanRows(df);
    DepartmentCheckMeans(df);
    ManagerCheckMeans(df);
    if !DepartmentSalariesOk(df) {
      ReportsFirstFailingFrameCheck(s, df, 0);
    } else if !ManagerScoresOk(df) {
      ReportsFirstFailingFrameCheck(s, df, 1);
    }
  }

  /**
   * As written, the manager check takes the minimum score of an empty
   * selection when nobody is referenced as a manager; that minimum is NaN and
   * the comparison with 3.5 is false, so such a table is rejected by the
   * manager check even when it meets every other rule.
   */
  lemma UnmanagedTableRejected(df: Frame)
    requires HasEmployeeColumns(df) && RowsValid(df) && IdsUnique(df) && DepartmentSalariesOk(df)
    requires forall i :: 0 <= i < df.nrows ==> !IsManager(df, i)
    ensures Validate(CreateEmployeeSchema(), df) == Err(DataFrameCheckFailed(ManagerScoreCheck))
  {
    FrameRuleViolationReported(df);
  }

  /** In particular a table with all the columns and no rows is rejected by the manager check. */
  lemma EmptyTableRejected(df: Frame)
    requires HasEmployeeColumns(df) && df.nrows == 0
    ensures Validate(CreateEmployeeSchema(), df) == Err(DataFrameCheckFailed(ManagerScoreCheck))
  {
    UnmanagedTableRejected(df);
  }

  /**
   * Editing one cell of a valid table so that its column no longer passes is
   * reported as that column's error: the columns declared before it are
   * untouched by the edit and still pass.
   */
  lemma SingleCellEditReported(df: Frame, k: nat, i: nat, v: Value)
    requires EmployeeTableValid(df) && k < |ColumnNames| && i < df.nrows
    requires !ColumnSatisfied(CreateEmployeeSchema().columns[k], SetCell(df, ColumnNames[k], i, v))
    ensures ColumnFailure(CreateEmployeeSchema().columns[k], SetCell(df, ColumnNames[k], i, v)).Some?
    ensures Validate(CreateEmployeeSchema(), SetCell(df, ColumnNames[k], i, v)) ==
      Err(ColumnFailure(CreateEmployeeSchema().columns[k], SetCell(df, ColumnNames[k], i, v)).value)
  {
    var s := CreateEmployeeSchema();
    var edited := SetCell(df, ColumnNames[k], i, v);
    ValidateIffEmployeeTableValid(df);
    PresenceMeansColumns(df);
    PresenceMeansColumns(edited);
    forall j | 0 <= j < k ensures ColumnSatisfied(s.columns[j], edited) {
      assert s.columns[j].name != ColumnNames[k];
      ColumnSatisfiedLocal(s.columns[j], df, edited);
    }
    ReportsFirstFailingColumn(s, edited, k);
  }
}
