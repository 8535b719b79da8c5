/**
 * The example tables of the repository's tests, and what validation does
 * with each: the five-row table of valid employees, tables that break it in
 * one cell, and the tables built to break one aggregate rule.
 */
module Scenarios {
  import opened Frames
  import opened Schema
  import opened EmployeeSchema
  import opened Validation

  const IdCells: seq<Value> := [VInt(1001), VInt(1002), VInt(1003), VInt(1004), VInt(1005)]
  const NameCells: seq<Value> := [VStr("山田太郎"), VStr("佐藤花子"), VStr("鈴木一郎"), VStr("田中美香"), VStr("伊藤健太")]
  const AgeCells: seq<Value> := [VInt(28), VInt(34), VInt(42), VInt(23), VInt(31)]
  const DepartmentCells: seq<Value> := [VStr("IT"), VStr("HR"), VStr("Finance"), VStr("Marketing"), VStr("IT")]
  const SalaryCells: seq<Value> := [VInt(350000), VInt(420000), VInt(580000), VInt(310000), VInt(400000)]
  const JoinDateCells: seq<Value> :=
    [VDate(Date(2019, 4, 1)), VDate(Date(2015, 9, 15)), VDate(Date(2010, 6, 30)), VDate(Date(2022, 1, 10)), VDate(Date(2017, 11, 5))]
  const ManagerCells: seq<Value> := [VNull, VInt(1003), VNull, VInt(1002), VInt(1003)]
  const ScoreCells: seq<Value> := [VReal(4.2), VReal(3.8), VReal(4.5), VReal(3.2), VReal(4.0)]

  // ---------------------------------------------------------------------------
  // Groups of small tables, row by row

  function Pick(k: Value, v: Value, g: Value): seq<Value>
  {
    if k == g then [v] else []
  }

  lemma GroupStep(keys: seq<Value>, vs: seq<Value>, g: Value, n: nat)
    requires |keys| == |vs| && n < |keys|
    ensures Group(keys[..n + 1], vs[..n + 1], g) == Group(keys[..n], vs[..n], g) + Pick(keys[n], vs[n], g)
  {
    assert keys[..n + 1] == keys[..n] + [keys[n]];
    assert vs[..n + 1] == vs[..n] + [vs[n]];
    GroupSnoc(keys[..n], vs[..n], keys[n], vs[n], g);
  }

  lemma GroupOfThree(keys: seq<Value>, vs: seq<Value>, g: Value)
    requires |keys| == |vs| == 3
    ensures Group(keys, vs, g) == Pick(keys[0], vs[0], g) + Pick(keys[1], vs[1], g) + Pick(keys[2], vs[2], g)
  {
    GroupStep(keys, vs, g, 0);
    GroupStep(keys, vs, g, 1);
    GroupStep(keys, vs, g, 2);
    assert keys[..3] == keys && vs[..3] == vs;
  }

  lemma GroupOfFour(keys: seq<Value>, vs: seq<Value>, g: Value)
    requires |keys| == |vs| == 4
    ensures Group(keys, vs, g) ==
      Pick(keys[0], vs[0], g) + Pick(keys[1], vs[1], g) + Pick(keys[2], vs[2], g) + Pick(keys[3], vs[3], g)
  {
    GroupOfThree(keys[..3], vs[..3], g);
    GroupStep(keys, vs, g, 3);
    assert keys[..4] == keys && vs[..4] == vs;
  }

  lemma GroupOfFive(keys: seq<Value>, vs: seq<Value>, g: Value)
    requires |keys| == |vs| == 5
    ensures Group(keys, vs, g) ==
      Pick(keys[0], vs[0], g) + Pick(keys[1], vs[1], g) + Pick(keys[2], vs[2], g) + Pick(keys[3], vs[3], g)
      + Pick(keys[4], vs[4], g)
  {
    GroupOfFour(keys[..4], vs[..4], g);
    GroupStep(keys, vs, g, 4);
    assert keys[..5] == keys && vs[..5] == vs;
  }

  // ---------------------------------------------------------------------------
  // The valid table

  /** The five valid employees. */
  function Employees(): (df: Frame)
    ensures HasEmployeeColumns(df) && df.nrows == 5
  {
    RawFrame(5, map[
      "employee_id" := IdCells,
      "name" := NameCells,
      "age" := AgeCells,
      "department" := DepartmentCells,
      "salary" := SalaryCells,
      "join_date" := JoinDateCells,
      "manager_id" := ManagerCells,
      "performance_score" := ScoreCells])
  }

  /** `df` has the employee columns, holding these cells. */
  predicate HasCells(df: Frame, ids: seq<Value>, names: seq<Value>, ages: seq<Value>, depts: seq<Value>,
                     sals: seq<Value>, dates: seq<Value>, mgrs: seq<Value>, scores: seq<Value>)
  {
    && HasEmployeeColumns(df)
    && Ids(df) == ids && df.columns["name"] == names && df.columns["age"] == ages && Depts(df) == depts
    && Salaries(df) == sals && df.columns["join_date"] == dates && Managers(df) == mgrs && Scores(df) == scores
  }

  lemma EmployeesColumns()
    ensures HasCells(Employees(), IdCells, NameCells, AgeCells, DepartmentCells, SalaryCells, JoinDateCells, ManagerCells, ScoreCells)
  {
  }

  /** Every cell of the valid table meets its column's rule, and no employee number repeats. */
  lemma ValidCells()
    ensures forall i :: 0 <= i < 5 ==>
      && EmployeeIdOk(IdCells[i]) && NameOk(NameCells[i]) && AgeOk(AgeCells[i]) && DepartmentOk(DepartmentCells[i])
      && SalaryOk(SalaryCells[i]) && ManagerOk(ManagerCells[i], IdCells[i]) && ScoreOk(ScoreCells[i])
    ensures forall i :: 0 <= i < 5 ==> JoinDateOk(JoinDateCells[i])
    ensures NoDuplicates(IdCells)
  {
  }

  /** Every department of the valid table pays at least 300000 per head. */
  lemma ValidDepartmentTotals()
    ensures forall i :: 0 <= i < 5 ==>
      IntTotal(Group(DepartmentCells, SalaryCells, DepartmentCells[i])) >= 300000 * |Group(DepartmentCells, SalaryCells, DepartmentCells[i])|
  {
    forall i | 0 <= i < 5
      ensures IntTotal(Group(DepartmentCells, SalaryCells, DepartmentCells[i])) >= 300000 * |Group(DepartmentCells, SalaryCells, DepartmentCells[i])|
    {
      GroupOfFive(DepartmentCells, SalaryCells, DepartmentCells[i]);
      if DepartmentCells[i] == VStr("IT") {
        assert Group(DepartmentCells, SalaryCells, DepartmentCells[i]) == [VInt(350000)] + [VInt(400000)];
        IntTotalAppend([VInt(350000)], [VInt(400000)]);
      } else {
        assert Group(DepartmentCells, SalaryCells, DepartmentCells[i]) == [SalaryCells[i]];
      }
    }
  }

  /** In a five-row table with the valid table's identifiers and managers, exactly 1002 and 1003 manage someone. */
  lemma ManagersOfFive(df: Frame)
    requires HasEmployeeColumns(df) && df.nrows == 5 && Ids(df) == IdCells && Managers(df) == ManagerCells
    ensures forall i :: 0 <= i < 5 ==> (IsManager(df, i) <==> i == 1 || i == 2)
  {
    forall i | 0 <= i < 5 ensures IsManager(df, i) <==> i == 1 || i == 2 {
      if i == 1 {
        assert Managers(df)[3] == Ids(df)[1];
      } else if i == 2 {
        assert Managers(df)[1] == Ids(df)[2];
      } else {
        assert forall j :: 0 <= j < 5 && Managers(df)[j] != VNull ==> Managers(df)[j] in {VInt(1002), VInt(1003)};
      }
    }
  }

  /**
   * A table with the valid table's columns, where the ages and scores may
   * differ but stay within their ranges and managers 1002 and 1003 still
   * score at least 3.5, meets every rule.
   */
  lemma ValidWith(df: Frame, ages: seq<Value>, scores: seq<Value>)
    requires HasCells(df, IdCells, NameCells, ages, DepartmentCells, SalaryCells, JoinDateCells, ManagerCells, scores)
    requires |ages| == 5 && |scores| == 5
    requires forall i :: 0 <= i < 5 ==> AgeOk(ages[i]) && ScoreOk(scores[i])
    requires AsReal(scores[1]) >= 3.5 && AsReal(scores[2]) >= 3.5
    ensures EmployeeTableValid(df)
  {
    assert df.nrows == 5;
    ValidCells();
    ValidDepartmentTotals();
    ManagersOfFive(df);
    assert RowsValid(df) by {
      forall i | 0 <= i < df.nrows ensures RowValid(df, i) {
      }
    }
    assert IsManager(df, 2);
  }

  /** The five valid employees meet every rule. */
  lemma EmployeesValid()
    ensures EmployeeTableValid(Employees())
  {
    EmployeesColumns();
    ValidCells();
    ValidWith(Employees(), AgeCells, ScoreCells);
  }

  /** Which departments the valid table's rows name, and how many rows name each. */
  lemma DepartmentCellCounts()
    ensures forall d :: VStr(d) in DepartmentCells <==> d in {"IT", "HR", "Finance", "Marketing"}
    ensures |Group(DepartmentCells, DepartmentCells, VStr("IT"))| == 2
    ensures |Group(DepartmentCells, DepartmentCells, VStr("HR"))| == 1
    ensures |Group(DepartmentCells, DepartmentCells, VStr("Finance"))| == 1
    ensures |Group(DepartmentCells, DepartmentCells, VStr("Marketing"))| == 1
  {
    GroupOfFive(DepartmentCells, DepartmentCells, VStr("IT"));
    GroupOfFive(DepartmentCells, DepartmentCells, VStr("HR"));
    GroupOfFive(DepartmentCells, DepartmentCells, VStr("Finance"));
    GroupOfFive(DepartmentCells, DepartmentCells, VStr("Marketing"));
  }

  /** The head-count per department of a table with the valid table's departments. */
  lemma DepartmentCountsOf(df: Frame)
    requires HasEmployeeColumns(df) && Depts(df) == DepartmentCells
    ensures Summarize(df).departments == map["IT" := 2, "HR" := 1, "Finance" := 1, "Marketing" := 1]
  {
    var m := Summarize(df).departments;
    DepartmentCellCounts();
    assert m.Keys == {"IT", "HR", "Finance", "Marketing"};
  }

  /** The head-count per department of the valid table. */
  lemma EmployeesDepartmentCounts()
    ensures Summarize(Employees()).departments == map["IT" := 2, "HR" := 1, "Finance" := 1, "Marketing" := 1]
  {
    EmployeesColumns();
    DepartmentCountsOf(Employees());
  }

  /** The valid table passes, is returned as given, and its summary counts its five rows and its four departments. */
  lemma EmployeesAccepted()
    ensures ValidateEmployeeData(Employees(), NoFault) ==
      Outcome(true, Some(Employees()), None, Some(Summarize(Employees())))
    ensures Summarize(Employees()).recordCount == 5
    ensures Summarize(Employees()).departments == map["IT" := 2, "HR" := 1, "Finance" := 1, "Marketing" := 1]
  {
    EmployeesValid();
    SuccessIffValid(Employees());
    EmployeesDepartmentCounts();
  }

  // ---------------------------------------------------------------------------
  // One bad cell in the valid table

  const SchemaName := CreateEmployeeSchema().name

  /** An edit of the valid table that makes column `k` fail is rejected with that column's error. */
  lemma EditRejected(k: nat, i: nat, v: Value, e: SchemaError)
    requires k < |ColumnNames| && i < 5
    requires ColumnFailure(CreateEmployeeSchema().columns[k], SetCell(Employees(), ColumnNames[k], i, v)) == Some(e)
    ensures ValidateEmployeeData(SetCell(Employees(), ColumnNames[k], i, v), NoFault) == Failed(Message(SchemaName, e))
  {
    EmployeesValid();
    SingleCellEditReported(Employees(), k, i, v);
  }

  lemma TextualAgeFails(df: Frame)
    requires "age" in df.columns && df.columns["age"] == AgeCells[1 := VStr("三十四")]
    ensures ColumnFailure(AgeColumn, df) == Some(WrongDataType("age", Int64))
  {
    assert VNull !in df.columns["age"];
    assert df.columns["age"][1] != VNull && !HasType(df.columns["age"][1], Int64);
  }

  /** The second employee's age given as the text "三十四": a dtype error naming the column and its integer type. */
  lemma TextualAgeRejected()
    ensures ValidateEmployeeData(SetCell(Employees(), "age", 1, VStr("三十四")), NoFault)
            == Failed(Message(SchemaName, WrongDataType("age", Int64)))
    ensures Mentions(Message(SchemaName, WrongDataType("age", Int64)), "age")
    ensures Mentions(Message(SchemaName, WrongDataType("age", Int64)), "int")
  {
    EmployeesColumns();
    TextualAgeFails(SetCell(Employees(), "age", 1, VStr("三十四")));
    EditRejected(2, 1, VStr("三十四"), WrongDataType("age", Int64));
    assert "int" <= "int64"[0..];
    MentionsWithin(Message(SchemaName, WrongDataType("age", Int64)), "int64", "int");
  }

  lemma LowSalaryFails(df: Frame)
    requires "salary" in df.columns && df.columns["salary"] == SalaryCells[1 := VInt(200000)]
    ensures ColumnFailure(SalaryColumn, df) == Some(ElementCheckFailed("salary", SalaryColumn.check))
  {
    assert VNull !in df.columns["salary"];
    assert df.columns["salary"][1] != VNull && !Holds(SalaryColumn.check, df, 1, df.columns["salary"][1]);
  }

  /** A salary of 200000, below the floor: the salary column's `greater_than_or_equal_to` check fails. */
  lemma LowSalaryRejected()
    ensures ValidateEmployeeData(SetCell(Employees(), "salary", 1, VInt(200000)), NoFault)
            == Failed(Message(SchemaName, ElementCheckFailed("salary", SalaryColumn.check)))
    ensures Mentions(Message(SchemaName, ElementCheckFailed("salary", SalaryColumn.check)), "salary")
    ensures Mentions(Message(SchemaName, ElementCheckFailed("salary", SalaryColumn.check)), "greater_than_or_equal_to")
  {
    EmployeesColumns();
    LowSalaryFails(SetCell(Employees(), "salary", 1, VInt(200000)));
    EditRejected(4, 1, VInt(200000), ElementCheckFailed("salary", SalaryColumn.check));
  }

  lemma DuplicateIdFails(df: Frame)
    requires "employee_id" in df.columns && df.columns["employee_id"] == IdCells[1 := VInt(1001)]
    ensures ColumnFailure(EmployeeIdColumn, df) == Some(SeriesContainsDuplicates("employee_id"))
  {
    assert VNull !in df.columns["employee_id"];
    assert df.columns["employee_id"][0] == df.columns["employee_id"][1];
  }

  /** The second employee renumbered 1001, the first employee's number: a uniqueness error on `employee_id`. */
  lemma DuplicateIdRejected()
    ensures ValidateEmployeeData(SetCell(Employees(), "employee_id", 1, VInt(1001)), NoFault)
            == Failed(Message(SchemaName, SeriesContainsDuplicates("employee_id")))
    ensures Mentions(Message(SchemaName, SeriesContainsDuplicates("employee_id")), "employee_id")
    ensures Mentions(Message(SchemaName, SeriesContainsDuplicates("employee_id")), "unique")
  {
    EmployeesColumns();
    DuplicateIdFails(SetCell(Employees(), "employee_id", 1, VInt(1001)));
    EditRejected(0, 1, VInt(1001), SeriesContainsDuplicates("employee_id"));
  }

  lemma SelfManagerFails(df: Frame)
    requires df.nrows == 5 && "manager_id" in df.columns && "employee_id" in df.columns
    requires df.columns["manager_id"] == ManagerCells[1 := VInt(1002)] && df.columns["employee_id"] == IdCells
    ensures ColumnFailure(ManagerIdColumn, df) == Some(ElementCheckFailed("manager_id", ManagerIdColumn.check))
  {
    assert forall i :: 0 <= i < 5 && df.columns["manager_id"][i] != VNull ==> df.columns["manager_id"][i].VInt?;
    assert df.columns["manager_id"][1] != VNull && !Holds(ManagerIdColumn.check, df, 1, df.columns["manager_id"][1]);
  }

  /** The `manager_id` error names its column and carries the check's text about the manager id. */
  lemma SelfManagerMessage()
    ensures Mentions(Message(SchemaName, ElementCheckFailed("manager_id", ManagerIdColumn.check)), "manager_id")
    ensures Mentions(Message(SchemaName, ElementCheckFailed("manager_id", ManagerIdColumn.check)), "上司ID")
  {
    assert "上司ID" <= ManagerIdError[0..];
    MentionsWithin(Message(SchemaName, ElementCheckFailed("manager_id", ManagerIdColumn.check)), ManagerIdError, "上司ID");
  }

  /** Employee 1002 made their own manager: the `manager_id` check fails with its own error text. */
  lemma SelfManagerRejected()
    ensures ValidateEmployeeData(SetCell(Employees(), "manager_id", 1, VInt(1002)), NoFault)
            == Failed(Message(SchemaName, ElementCheckFailed("manager_id", ManagerIdColumn.check)))
    ensures Mentions(Message(SchemaName, ElementCheckFailed("manager_id", ManagerIdColumn.check)), "manager_id")
    ensures Mentions(Message(SchemaName, ElementCheckFailed("manager_id", ManagerIdColumn.check)), "上司ID")
  {
    EmployeesColumns();
    SelfManagerFails(SetCell(Employees(), "manager_id", 1, VInt(1002)));
    EditRejected(6, 1, VInt(1002), ElementCheckFailed("manager_id", ManagerIdColumn.check));
    SelfManagerMessage();
  }

  lemma UnknownDepartmentFails(df: Frame)
    requires "department" in df.columns && df.columns["department"] == DepartmentCells[1 := VStr("Legal")]
    ensures ColumnFailure(DepartmentColumn, df) == Some(ElementCheckFailed("department", DepartmentColumn.check))
  {
    assert VNull !in df.columns["department"];
    assert df.columns["department"][1] != VNull && !Holds(DepartmentColumn.check, df, 1, df.columns["department"][1]);
  }

  /** The department error names its column and the `isin` check. */
  lemma UnknownDepartmentMessage()
    ensures Mentions(Message(SchemaName, ElementCheckFailed("department", DepartmentColumn.check)), "department")
    ensures Mentions(Message(SchemaName, ElementCheckFailed("department", DepartmentColumn.check)), "isin")
  {
  }

  /** A department "Legal", not in the allowed list: the department column's `isin` check fails. */
  lemma UnknownDepartmentRejected()
    ensures ValidateEmployeeData(SetCell(Employees(), "department", 1, VStr("Legal")), NoFault)
            == Failed(Message(SchemaName, ElementCheckFailed("department", DepartmentColumn.check)))
    ensures Mentions(Message(SchemaName, ElementCheckFailed("department", DepartmentColumn.check)), "department")
    ensures Mentions(Message(SchemaName, ElementCheckFailed("department", DepartmentColumn.check)), "isin")
  {
    EmployeesColumns();
    UnknownDepartmentFails(SetCell(Employees(), "department", 1, VStr("Legal")));
    EditRejected(3, 1, VStr("Legal"), ElementCheckFailed("department", DepartmentColumn.check));
    UnknownDepartmentMessage();
  }

  lemma EarlyJoinDateFails(df: Frame)
    requires "join_date" in df.columns && df.columns["join_date"] == JoinDateCells[1 := VDate(Date(1999, 9, 15))]
    ensures ColumnFailure(JoinDateColumn, df) == Some(ElementCheckFailed("join_date", JoinDateColumn.check))
  {
    assert VNull !in df.columns["join_date"];
    assert df.columns["join_date"][1] != VNull && !Holds(JoinDateColumn.check, df, 1, df.columns["join_date"][1]);
  }

  /** The join-date error names its column and carries the check's text, which names the year 2000. */
  lemma EarlyJoinDateMessage()
    ensures Mentions(Message(SchemaName, ElementCheckFailed("join_date", JoinDateColumn.check)), "join_date")
    ensures Mentions(Message(SchemaName, ElementCheckFailed("join_date", JoinDateColumn.check)), "2000")
  {
    assert "2000" <= JoinDateError[4..];
    MentionsWithin(Message(SchemaName, ElementCheckFailed("join_date", JoinDateColumn.check)), JoinDateError, "2000");
  }

  /** A join date of 1999-09-15: the join-date check fails, and its error text names the year 2000. */
  lemma EarlyJoinDateRejected()
    ensures ValidateEmployeeData(SetCell(Employees(), "join_date", 1, VDate(Date(1999, 9, 15))), NoFault)
            == Failed(Message(SchemaName, ElementCheckFailed("join_date", JoinDateColumn.check)))
    ensures Mentions(Message(SchemaName, ElementCheckFailed("join_date", JoinDateColumn.check)), "join_date")
    ensures Mentions(Message(SchemaName, ElementCheckFailed("join_date", JoinDateColumn.check)), "2000")
  {
    EmployeesColumns();
    EarlyJoinDateFails(SetCell(Employees(), "join_date", 1, VDate(Date(1999, 9, 15))));
    EditRejected(5, 1, VDate(Date(1999, 9, 15)), ElementCheckFailed("join_date", JoinDateColumn.check));
    EarlyJoinDateMessage();
  }

  // ---------------------------------------------------------------------------
  // Boundaries of the ranges, on the first employee

  /**
   * In a table with the valid table's cells except for its ages and scores,
   * which stay valid in every row but the first, the six columns other than
   * `age` and `performance_score` pass.
   */
  lemma OtherColumnsPass(df: Frame, ages: seq<Value>, scores: seq<Value>)
    requires HasCells(df, IdCells, NameCells, ages, DepartmentCells, SalaryCells, JoinDateCells, ManagerCells, scores)
    ensures forall k :: 0 <= k < |ColumnNames| && k != 2 && k != 7 ==> ColumnSatisfied(CreateEmployeeSchema().columns[k], df)
  {
    ValidCells();
    IdColumnMeans(df);
    forall i | 0 <= i < df.nrows
      ensures CellSatisfied(NameColumn, df, i) && CellSatisfied(DepartmentColumn, df, i) && CellSatisfied(SalaryColumn, df, i)
      ensures CellSatisfied(JoinDateColumn, df, i) && CellSatisfied(ManagerIdColumn, df, i)
    {
      CellColumnsMean(df, i);
    }
  }

  /** An age from 18 to 65 in the first row of the valid table is accepted and reads back unchanged. */
  lemma AgeEditAccepted(df: Frame, a: int)
    requires HasCells(df, IdCells, NameCells, AgeCells[0 := VInt(a)], DepartmentCells, SalaryCells, JoinDateCells, ManagerCells, ScoreCells)
    requires 18 <= a <= 65
    ensures ValidateEmployeeData(df, NoFault).success
    ensures ValidateEmployeeData(df, NoFault).table == Some(df)
  {
    ValidCells();
    ValidWith(df, AgeCells[0 := VInt(a)], ScoreCells);
    SuccessIffValid(df);
  }

  /** An age outside 18 to 65 in the first row of the valid table is rejected, with an error naming `age`. */
  lemma AgeEditRefused(df: Frame, a: int)
    requires HasCells(df, IdCells, NameCells, AgeCells[0 := VInt(a)], DepartmentCells, SalaryCells, JoinDateCells, ManagerCells, ScoreCells)
    requires !(18 <= a <= 65)
    ensures !ValidateEmployeeData(df, NoFault).success
    ensures Mentions(ValidateEmployeeData(df, NoFault).message.value, "age")
  {
    OtherColumnsPass(df, AgeCells[0 := VInt(a)], ScoreCells);
    CellColumnsMean(df, 0);
    ColumnViolationNamed(df, 2);
  }

  /** Ages are accepted exactly from 18 to 65 inclusive; an accepted age reads back unchanged, a rejected one is reported on `age`. */
  lemma AgeBoundaries(a: int)
    ensures var r := ValidateEmployeeData(SetCell(Employees(), "age", 0, VInt(a)), NoFault);
      && (r.success <==> 18 <= a <= 65)
      && (r.success ==> r.table.value.columns["age"][0] == VInt(a))
      && (!r.success ==> Mentions(r.message.value, "age"))
  {
    var df := SetCell(Employees(), "age", 0, VInt(a));
    EmployeesColumns();
    assert HasCells(df, IdCells, NameCells, AgeCells[0 := VInt(a)], DepartmentCells, SalaryCells, JoinDateCells, ManagerCells, ScoreCells);
    if 18 <= a <= 65 {
      AgeEditAccepted(df, a);
    } else {
      AgeEditRefused(df, a);
    }
  }

  /** A score from 1.0 to 5.0 in the first row of the valid table is accepted and reads back unchanged. */
  lemma ScoreEditAccepted(df: Frame, x: real)
    requires HasCells(df, IdCells, NameCells, AgeCells, DepartmentCells, SalaryCells, JoinDateCells, ManagerCells, ScoreCells[0 := VReal(x)])
    requires 1.0 <= x <= 5.0
    ensures ValidateEmployeeData(df, NoFault).success
    ensures ValidateEmployeeData(df, NoFault).table == Some(df)
  {
    ValidCells();
    ValidWith(df, AgeCells, ScoreCells[0 := VReal(x)]);
    SuccessIffValid(df);
  }

  /** A score outside 1.0 to 5.0 in the first row of the valid table is rejected, with an error naming `performance_score`. */
  lemma ScoreEditRefused(df: Frame, x: real)
    requires HasCells(df, IdCells, NameCells, AgeCells, DepartmentCells, SalaryCells, JoinDateCells, ManagerCells, ScoreCells[0 := VReal(x)])
    requires !(1.0 <= x <= 5.0)
    ensures !ValidateEmployeeData(df, NoFault).success
    ensures Mentions(ValidateEmployeeData(df, NoFault).message.value, "performance_score")
  {
    OtherColumnsPass(df, AgeCells, ScoreCells[0 := VReal(x)]);
    ValidCells();
    forall i | 0 <= i < df.nrows ensures CellSatisfied(AgeColumn, df, i) {
      CellColumnsMean(df, i);
    }
    CellColumnsMean(df, 0);
    ColumnViolationNamed(df, 7);
  }

  /** Scores are accepted exactly from 1.0 to 5.0 inclusive; an accepted score reads back unchanged, a rejected one is reported on `performance_score`. */
  lemma ScoreBoundaries(x: real)
    ensures var r := ValidateEmployeeData(SetCell(Employees(), "performance_score", 0, VReal(x)), NoFault);
      && (r.success <==> 1.0 <= x <= 5.0)
      && (r.success ==> r.table.value.columns["performance_score"][0] == VReal(x))
      && (!r.success ==> Mentions(r.message.value, "performance_score"))
  {
    var df := SetCell(Employees(), "performance_score", 0, VReal(x));
    EmployeesColumns();
    assert HasCells(df, IdCells, NameCells, AgeCells, DepartmentCells, SalaryCells, JoinDateCells, ManagerCells, ScoreCells[0 := VReal(x)]);
    if 1.0 <= x <= 5.0 {
      ScoreEditAccepted(df, x);
    } else {
      ScoreEditRefused(df, x);
    }
  }

  // ---------------------------------------------------------------------------
  // Tables built to break an aggregate rule, or missing a column

  lemma IntTotalOfThree(vs: seq<Value>)
    requires |vs| == 3
    ensures IntTotal(vs) == IntOf(vs[0]) + IntOf(vs[1]) + IntOf(vs[2])
  {
    assert vs == [vs[0]] + [vs[1]] + [vs[2]];
    IntTotalAppend([vs[0]] + [vs[1]], [vs[2]]);
    IntTotalAppend([vs[0]], [vs[1]]);
    assert IntTotal([vs[0]]) == IntOf(vs[0]) by { assert [vs[0]][..0] == []; }
    assert IntTotal([vs[1]]) == IntOf(vs[1]) by { assert [vs[1]][..0] == []; }
    assert IntTotal([vs[2]]) == IntOf(vs[2]) by { assert [vs[2]][..0] == []; }
  }

  /** Three IT employees paid 250001, 250002 and 250003. */
  function LowPaid(): (df: Frame)
    ensures HasEmployeeColumns(df) && df.nrows == 3
  {
    RawFrame(3, map[
      "employee_id" := [VInt(1001), VInt(1002), VInt(1003)],
      "name" := [VStr("山田太郎"), VStr("佐藤花子"), VStr("鈴木一郎")],
      "age" := [VInt(28), VInt(34), VInt(42)],
      "department" := [VStr("IT"), VStr("IT"), VStr("IT")],
      "salary" := [VInt(250001), VInt(250002), VInt(250003)],
      "join_date" := [VDate(Date(2019, 4, 1)), VDate(Date(2015, 9, 15)), VDate(Date(2010, 6, 30))],
      "manager_id" := [VNull, VInt(1001), VInt(1001)],
      "performance_score" := [VReal(4.2), VReal(3.8), VReal(4.5)]])
  }

  lemma LowPaidRows()
    ensures RowsValid(LowPaid()) && IdsUnique(LowPaid()) && !DepartmentSalariesOk(LowPaid())
  {
    var df := LowPaid();
    assert RowsValid(df);
    assert IdsUnique(df);
    GroupOfThree(Depts(df), Salaries(df), VStr("IT"));
    assert Group(Depts(df), Salaries(df), VStr("IT")) == Salaries(df);
    IntTotalOfThree(Salaries(df));
  }

  /**
   * Every salary of the three clears the 250000 floor, yet their department's
   * mean does not reach 300000: the table is rejected by the department check.
   */
  lemma LowPaidRejected()
    ensures RowsValid(LowPaid()) && IdsUnique(LowPaid())
    ensures ValidateEmployeeData(LowPaid(), NoFault) == Failed(Message(SchemaName, DataFrameCheckFailed(DepartmentMeanCheck)))
    ensures Mentions(Message(SchemaName, DataFrameCheckFailed(DepartmentMeanCheck)), "平均給与")
  {
    LowPaidRows();
    FrameRuleViolationReported(LowPaid());
    DepartmentMeanMessage();
  }

  /** The department-check error carries its text, which speaks of the mean salary. */
  lemma DepartmentMeanMessage()
    ensures Mentions(Message(SchemaName, DataFrameCheckFailed(DepartmentMeanCheck)), "平均給与")
  {
    assert "平均給与" <= DepartmentMeanError[4..];
    MentionsWithin(Message(SchemaName, DataFrameCheckFailed(DepartmentMeanCheck)), DepartmentMeanError, "平均給与");
  }

  /** Four employees in four departments; 1003 manages two of them and scores 3.3, 1004 manages nobody and scores 3.2. */
  function LowScoringManager(): (df: Frame)
    ensures HasEmployeeColumns(df) && df.nrows == 4
  {
    RawFrame(4, map[
      "employee_id" := [VInt(1001), VInt(1002), VInt(1003), VInt(1004)],
      "name" := [VStr("山田太郎"), VStr("佐藤花子"), VStr("鈴木一郎"), VStr("田中美香")],
      "age" := [VInt(28), VInt(34), VInt(42), VInt(23)],
      "department" := [VStr("IT"), VStr("HR"), VStr("Finance"), VStr("Marketing")],
      "salary" := [VInt(350000), VInt(420000), VInt(580000), VInt(310000)],
      "join_date" := [VDate(Date(2019, 4, 1)), VDate(Date(2015, 9, 15)), VDate(Date(2010, 6, 30)), VDate(Date(2022, 1, 10))],
      "manager_id" := [VNull, VInt(1003), VNull, VInt(1003)],
      "performance_score" := [VReal(4.2), VReal(3.8), VReal(3.3), VReal(3.2)]])
  }

  lemma LowScoringManagerRows()
    ensures RowsValid(LowScoringManager()) && IdsUnique(LowScoringManager())
  {
    var df := LowScoringManager();
    assert RowValid(df, 0);
    assert RowValid(df, 1);
    assert RowValid(df, 2);
    assert RowValid(df, 3);
  }

  lemma LowScoringManagerDepartments()
    ensures DepartmentSalariesOk(LowScoringManager())
  {
    var df := LowScoringManager();
    forall i | 0 <= i < 4
      ensures IntTotal(Group(Depts(df), Salaries(df), Depts(df)[i])) >= 300000 * |Group(Depts(df), Salaries(df), Depts(df)[i])|
    {
      GroupOfFour(Depts(df), Salaries(df), Depts(df)[i]);
      assert Group(Depts(df), Salaries(df), Depts(df)[i]) == [Salaries(df)[i]];
    }
  }

  lemma LowScoringManagerManagers()
    ensures IsManager(LowScoringManager(), 2) && !IsManager(LowScoringManager(), 3)
    ensures !ManagerScoresOk(LowScoringManager())
  {
    var df := LowScoringManager();
    assert Managers(df)[1] == Ids(df)[2];
    assert forall j :: 0 <= j < 4 && Managers(df)[j] != VNull ==> Managers(df)[j] == VInt(1003);
  }

  /** Manager 1003's score of 3.3 fails the manager check; non-manager 1004's 3.2 is not what fails it. */
  lemma LowScoringManagerRejected()
    ensures IsManager(LowScoringManager(), 2) && !IsManager(LowScoringManager(), 3)
    ensures ValidateEmployeeData(LowScoringManager(), NoFault) == Failed(Message(SchemaName, DataFrameCheckFailed(ManagerScoreCheck)))
    ensures Mentions(Message(SchemaName, DataFrameCheckFailed(ManagerScoreCheck)), "管理職")
  {
    LowScoringManagerRows();
    LowScoringManagerDepartments();
    LowScoringManagerManagers();
    FrameRuleViolationReported(LowScoringManager());
    ManagerScoreMessage();
  }

  /** The manager-check error carries its text, which speaks of managers. */
  lemma ManagerScoreMessage()
    ensures Mentions(Message(SchemaName, DataFrameCheckFailed(ManagerScoreCheck)), "管理職")
  {
    assert "管理職" <= ManagerScoreError[0..];
    MentionsWithin(Message(SchemaName, DataFrameCheckFailed(ManagerScoreCheck)), ManagerScoreError, "管理職");
  }

  /** Two employees and no `salary` column. */
  function WithoutSalary(): (df: Frame)
    ensures df.nrows == 2 && "salary" !in df.columns
  {
    RawFrame(2, map[
      "employee_id" := [VInt(1001), VInt(1002)],
      "name" := [VStr("山田太郎"), VStr("佐藤花子")],
      "age" := [VInt(28), VInt(34)],
      "department" := [VStr("IT"), VStr("HR")],
      "join_date" := [VDate(Date(2019, 4, 1)), VDate(Date(2015, 9, 15))],
      "manager_id" := [VNull, VInt(1003)],
      "performance_score" := [VReal(4.2), VReal(3.8)]])
  }

  /** The table without `salary` is rejected with an error naming `salary`. */
  lemma WithoutSalaryRejected()
    ensures ValidateEmployeeData(WithoutSalary(), NoFault) == Failed(Message(SchemaName, ColumnNotInFrame("salary")))
    ensures Mentions(ValidateEmployeeData(WithoutSalary(), NoFault).message.value, "salary")
  {
    MissingColumnNamed(WithoutSalary(), 4);
  }

  /** The first employee alone: nobody is anybody's manager. */
  function Alone(): (df: Frame)
    ensures HasEmployeeColumns(df) && df.nrows == 1
  {
    RawFrame(1, map[
      "employee_id" := [VInt(1001)],
      "name" := [VStr("山田太郎")],
      "age" := [VInt(28)],
      "department" := [VStr("IT")],
      "salary" := [VInt(350000)],
      "join_date" := [VDate(Date(2019, 4, 1))],
      "manager_id" := [VNull],
      "performance_score" := [VReal(4.2)]])
  }

  /** As written, the one-person table, valid row by row and by department, is rejected by the manager check. */
  lemma AloneRejected()
    ensures RowsValid(Alone()) && DepartmentSalariesOk(Alone())
    ensures ValidateEmployeeData(Alone(), NoFault) == Failed(Message(SchemaName, DataFrameCheckFailed(ManagerScoreCheck)))
  {
    var df := Alone();
    assert RowValid(df, 0);
    assert Group(Depts(df), Salaries(df), Depts(df)[0]) == Salaries(df);
    UnmanagedTableRejected(df);
  }

  /** An exception raised while building the schema: the failure message carries the fixed prefix and the exception's text. */
  lemma SchemaConstructionFailureReported()
    ensures var r := ValidateEmployeeData(Employees(), Raised("テスト用の予期せぬエラー"));
      && !r.success && r.table.None? && r.summary.None?
      && Mentions(r.message.value, "予期しないエラー") && Mentions(r.message.value, "テスト用の予期せぬエラー")
  {
    UnexpectedErrorReported(Employees(), "テスト用の予期せぬエラー");
    assert "予期しないエラー" <= UnexpectedErrorPrefix[0..];
    MentionsWithin(ValidateEmployeeData(Employees(), Raised("テスト用の予期せぬエラー")).message.value,
                   UnexpectedErrorPrefix, "予期しないエラー");
  }
}
