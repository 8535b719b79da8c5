# Employee-table validation, modelled in Dafny

This project models the employee-table validator of `pandera-practice`. It has two parts:

- `create_employee_schema` declares a pandera `DataFrameSchema` for an employee table:
  - eight typed columns, each with an element check;
  - `employee_id` unique, and `manager_id` the only nullable column;
  - two frame-level checks: every department's mean salary is at least 300000, and every employee who manages someone scores at least 3.5.
- `validate_employee_data` validates a frame against that schema and returns `(success, validated_df, error_msg, summary)`:
  - the summary holds the record count, the head-count per department, and the mean age, salary and score;
  - a schema error becomes its message;
  - any other exception becomes a message with the fixed prefix `予期しないエラーが発生しました: `.

The project is organised in five modules:

- `frames.dfy` (`Frames`) holds the part of pandas the code relies on:
  - a column-oriented frame, with cells that are typed values or missing;
  - `df.at[i, c] = v`;
  - `mean` and `min`, which skip missing values and give NaN on nothing;
  - `groupby`, `isin`, `dropna` and `value_counts`;
  - lemmas about sums, means, minima and groups.
- `schema.dfy` (`Schema`) describes a schema as data and states pandera's non-lazy validation over it, in this order:
  1. Every declared column must be present; the first missing one is reported.
  2. Columns are checked in declaration order. For each, nulls come first, then duplicates, then the dtype, then the element check.
  3. The frame checks run in order.

  The first failure is the error. This module also proves lemmas about which error is reported.
- `employee.dfy` (`EmployeeSchema`) has two parts:
  - the literal schema, `CreateEmployeeSchema`;
  - an independent row-by-row statement of the same rules, `EmployeeTableValid`. It has no division: the mean rule is stated as "total ≥ 300000 × head-count".

  `ValidateIffEmployeeTableValid` proves that the two accept exactly the same tables.
- `validation.dfy` (`Validation`) holds `ValidateEmployeeData`, the summary, and what a successful outcome guarantees about that summary.
- `scenarios.dfy` (`Scenarios`) holds the tables of the repository's test fixtures and what the model says about each of them. It also proves the age and score boundaries for every value, not only the sampled ones.

## Model

| member | source | states |
|---|---|---|
| Frames.OnOrAfter | pandera_validation/schemas/employee.py:69 | `x >= pd.Timestamp("2000-01-01")` on dates: a later year, or the same year and a later month, or the same month and a day no earlier. |
| Frames.Nums | pandera_validation/utils/validation.py:47-49 | skipna: the numbers of the non-missing cells. There are never more numbers than cells, and there are none exactly when every cell is missing. |
| Frames.MemberValues | pandera_validation/schemas/employee.py:104-106 | The `isin` selection: at most one cell per row. It is empty exactly when no row's key is in the set. |
| Frames.Occurrences | pandera_validation/utils/validation.py:46 | `value_counts()` for one value: never more than the row count, and positive exactly when the value occurs in the column. |
| Frames.SetCell | tests/conftest.py:35-40 | Writing one cell of a frame changes that cell only. Every other cell, the row count and the column names stay as they were. |
| Frames.Mean | pandera_validation/utils/validation.py:47-49 | A mean is a number exactly when at least one value is present; on nothing it is NaN. |
| Frames.Min | pandera_validation/schemas/employee.py:104-107 | A minimum is a number exactly when the series is non-empty, and then it is an element no larger than any other. |
| Frames.ValueSet | pandera_validation/schemas/employee.py:104 | `dropna()`, read as a set, holds exactly the non-missing values of the column. |
| Frames.MemberValuesMember | pandera_validation/schemas/employee.py:104-106 | The `isin` selection holds exactly the cells of the rows whose key is in the given set. |
| Frames.MeanAtLeast | pandera_validation/schemas/employee.py:99 | `mean() >= k` holds exactly when the series is non-empty and its sum is at least k times its size. |
| Frames.MinAtLeast | pandera_validation/schemas/employee.py:104-107 | `min() >= k` holds exactly when the series is non-empty and every element is at least k. |
| Frames.MeanBounds | pandera_validation/utils/validation.py:47-49 | The mean of a non-empty series with values in [lo, hi] lies in [lo, hi]. |
| Frames.IntMeanAtLeast | pandera_validation/utils/validation.py:48 | An integer column whose total is at least k per row has a mean of at least k. |
| Frames.GroupsPartition | pandera_validation/schemas/employee.py:99 | Over a repeat-free list of keys that covers every row, the groups of a `groupby` add up to the whole column, in total and in size. |
| Frames.GroupTotalsAtLeast | pandera_validation/schemas/employee.py:99 | If every group's total is at least k per member, so is the total over all those groups. |
| Frames.Distinct | pandera_validation/schemas/employee.py:99 | The groupby keys are a repeat-free list of exactly the non-missing values of the column; a missing key forms no group. |
| Schema.Holds | pandera_validation/schemas/employee.py:29-93 | The element checks. `greater_than_or_equal_to` and `in_range` accept numbers within their inclusive bounds (lines 32, 47, 61, 90). `str_length` accepts strings of 2 to 20 characters (line 40). `isin` accepts strings in the allowed list (line 54). The join-date check accepts dates on or after 2000-01-01 (lines 68-71). The `manager_id` check accepts a manager different from the same row's `employee_id` (lines 79-83). |
| Schema.FrameCheckHolds | pandera_validation/schemas/employee.py:96-110 | The two frame lambdas. Line 99: the mean salary of every non-missing department group is at least the threshold. Lines 104-107: the minimum score of the rows whose `employee_id` appears among the non-missing `manager_id` values is a number at least the threshold, so an empty selection (NaN) fails. A check over a missing column fails. |
| Schema.ColumnFailure | pandera_validation/schemas/employee.py:29-93 | A column fails exactly when its declaration is violated. For each error kind, that kind is reported exactly when it is the first problem in the order nulls, duplicates, dtype, element check. The error names the column. |
| Schema.FirstMissing | pandera_validation/schemas/employee.py:29-93 | No column is reported missing exactly when all declared columns are present; otherwise a declared column that is absent is reported. |
| Schema.FirstColumnFailure | pandera_validation/schemas/employee.py:29-93 | There is no column failure exactly when every column is satisfied; otherwise the failure is that of some declared column. |
| Schema.FirstFailingFrameCheck | pandera_validation/schemas/employee.py:96-110 | There is no failing frame check exactly when all of them hold; otherwise a failing one is reported. |
| Schema.Validate | pandera_validation/utils/validation.py:36 | `schema.validate(df)` succeeds exactly when the frame conforms, and then returns the frame unchanged. Otherwise it reports one of three errors: a missing declared column; with all columns present, a failing column; or, with every column satisfied, a failing frame check. |
| Schema.ReportsFirstMissingColumn | pandera_validation/schemas/employee.py:29-93 | When column k is the first declared column absent from the frame, validation reports that column as missing. |
| Schema.ReportsFirstFailingColumn | pandera_validation/schemas/employee.py:29-93 | When column k is the first column to fail, validation reports column k's own failure. |
| Schema.ReportsFirstFailingFrameCheck | pandera_validation/schemas/employee.py:96-110 | When every column passes and frame check k is the first to fail, validation reports check k. |
| Schema.ColumnSatisfiedLocal | pandera_validation/schemas/employee.py:76-86 | Whether a column passes depends only on its own cells. For the `manager_id` check it also depends on the compared `employee_id` cells. |
| Schema.Message | pandera_validation/utils/validation.py:61 | The error text names the failing column, or for a frame check carries its error text. It also names the expected dtype of a type error, the check of an element failure, and "unique" for duplicates. |
| EmployeeSchema.CreateEmployeeSchema | pandera_validation/schemas/employee.py:27-114 | Eight columns, in order, with distinct names. Only `manager_id` is nullable and only `employee_id` is unique. The two frame checks are the department-mean check and the manager-score check, in that order. |
| EmployeeSchema.EmployeeTableValid | pandera_validation/schemas/employee.py:14-25 | The rules stated directly, row by row and without division. The table has the eight columns, every row meets its cell rules, and no id repeats. Every department's salary total is at least 300000 per head. Someone manages someone, and every manager scores at least 3.5. |
| EmployeeSchema.PresenceMeansColumns | pandera_validation/schemas/employee.py:29-93 | All declared columns are present exactly when the frame has the eight employee columns. |
| EmployeeSchema.IdColumnMeans | pandera_validation/schemas/employee.py:30-36 | The `employee_id` column passes exactly when its values do not repeat and each is an integer of at least 1000. |
| EmployeeSchema.CellColumnsMean | pandera_validation/schemas/employee.py:38-92 | For each of the other seven columns, a cell passes exactly when it meets that column's rule: name of 2–20 characters, age 18–65, allowed department, salary ≥ 250000, join date on or after 2000-01-01, manager absent or different from the employee, score 1.0–5.0. |
| EmployeeSchema.ColumnsMeanRows | pandera_validation/schemas/employee.py:29-93 | The eight column declarations hold together exactly when every row is valid and no employee number repeats. |
| EmployeeSchema.DepartmentMeanMeans | pandera_validation/schemas/employee.py:98-101 | On valid rows, a department's mean salary is at least 300000 exactly when its total is at least 300000 times its head-count. |
| EmployeeSchema.DepartmentCheckMeans | pandera_validation/schemas/employee.py:98-101 | On valid rows, the department-mean check holds exactly when every department's salary total is at least 300000 per head. |
| EmployeeSchema.ManagerSelectionMeans | pandera_validation/schemas/employee.py:104-106 | A score is in the manager selection exactly when it belongs to an employee whom some row names as its manager. |
| EmployeeSchema.ManagerCheckMeans | pandera_validation/schemas/employee.py:103-109 | On valid rows, the manager check holds exactly when someone manages someone and every manager scores at least 3.5. |
| EmployeeSchema.ValidateIffEmployeeTableValid | pandera_validation/schemas/employee.py:27-114 | Validating against the declared schema accepts exactly the tables that meet the row-by-row statement of the rules. |
| EmployeeSchema.FrameRuleViolationReported | pandera_validation/schemas/employee.py:96-110 | On a table whose columns all pass, a department-mean violation is the error reported. Without one, a manager-score violation is. |
| EmployeeSchema.UnmanagedTableRejected | pandera_validation/schemas/employee.py:103-109 | A table that passes everything else, but in which nobody manages anybody, fails the manager check. |
| EmployeeSchema.EmptyTableRejected | pandera_validation/schemas/employee.py:103-109 | A table with the eight columns and no rows fails the manager check. |
| EmployeeSchema.SingleCellEditReported | pandera_validation/schemas/employee.py:29-93 | Editing one cell of a valid table so that its column fails makes validation report exactly that column's failure. |
| Validation.Summarize | pandera_validation/utils/validation.py:44-50 | The record count is the row count. The department keys are exactly the departments in the table, and each maps to the number of rows in that department. |
| Validation.ValidateEmployeeData | pandera_validation/utils/validation.py:16-73 | Success exactly when there is no message; table and summary are given exactly on success. On success the table is the input and the count is its row count. A schema error gives its message; any other exception gives the prefix plus its text. |
| Validation.SuccessIffValid | pandera_validation/utils/validation.py:31-57 | Without an unexpected exception, the call succeeds exactly when the table meets every rule. |
| Validation.UnexpectedErrorReported | pandera_validation/utils/validation.py:67-73 | An exception other than a schema error fails the call, with a message that carries the fixed prefix and the exception's text. |
| Validation.MissingColumnNamed | pandera_validation/utils/validation.py:59-65 | A table missing a declared column (the first missing one) fails, and the message names that column. |
| Validation.ColumnViolationNamed | pandera_validation/utils/validation.py:59-65 | A table whose first failing column is column k fails, and the message names that column. |
| Validation.SumCountsIsGroupSizes | pandera_validation/utils/validation.py:46 | Summing the summary's department counts over a list of departments gives the sum of those departments' group sizes. |
| Validation.DepartmentCountsSum | pandera_validation/utils/validation.py:46 | On success the head-counts per department add up to the record count. |
| Validation.SalaryTotalAtLeast | pandera_validation/schemas/employee.py:98-101 | In a valid table the salaries total at least 300000 per employee, because every department's do. |
| Validation.DepartmentsOfValidTable | pandera_validation/utils/validation.py:46 | Every department in a valid table's summary is an allowed one and has at least one employee. |
| Validation.AgesOfValidTable | pandera_validation/utils/validation.py:47 | The mean age of a non-empty valid table is a number in [18, 65]. |
| Validation.ScoresOfValidTable | pandera_validation/utils/validation.py:49 | The mean score of a non-empty valid table is a number in [1.0, 5.0]. |
| Validation.SalariesOfValidTable | pandera_validation/utils/validation.py:48 | The mean salary of a non-empty valid table is at least 300000. |
| Validation.MeansOverAllRows | pandera_validation/utils/validation.py:47-49 | In a valid table no cell of the three averaged columns is missing, so each mean is the total over the full row count. |
| Validation.SummaryOfValidatedTable | pandera_validation/utils/validation.py:44-50 | A successful outcome guarantees: a positive record count equal to the row count, allowed departments with positive counts, a mean age in [18, 65], a mean score in [1, 5], and a mean salary of at least 300000. |
| Scenarios.Employees | tests/conftest.py:7-32 | The five-employee fixture has the eight employee columns and five rows. |
| Scenarios.ValidWith | tests/conftest.py:14-29 | The fixture's table, with ages and scores changed within their ranges and managers 1002 and 1003 still scoring at least 3.5, meets every rule. |
| Scenarios.EmployeesValid | tests/test_employee_validation.py:14-19 | The five-employee fixture meets every rule. |
| Scenarios.EmployeesAccepted | tests/test_employee_validation.py:123-134 | The fixture passes and is returned unchanged. Its summary counts 5 records: IT 2, HR 1, Finance 1, Marketing 1. |
| Scenarios.EditRejected | tests/test_employee_validation.py:136-146 | An edit of the fixture that makes a column fail is rejected, with that column's error as the message. |
| Scenarios.TextualAgeRejected | tests/test_employee_validation.py:21-30 | The age "三十四" is a dtype error on `age`; the message mentions "age" and "int". |
| Scenarios.LowSalaryRejected | tests/test_employee_validation.py:32-43 | A salary of 200000 fails the salary check; the message mentions "salary" and "greater_than_or_equal_to". |
| Scenarios.DuplicateIdRejected | tests/test_employee_validation.py:45-54 | A repeated employee number is a uniqueness error; the message mentions "employee_id" and "unique". |
| Scenarios.SelfManagerRejected | tests/test_employee_validation.py:56-65 | Employee 1002 managing themself fails the `manager_id` check; the message mentions "manager_id" and "上司ID". |
| Scenarios.UnknownDepartmentRejected | tests/test_employee_validation.py:67-76 | The department "Legal" fails the allowed-list check; the message mentions "department" and "isin". |
| Scenarios.EarlyJoinDateRejected | tests/test_employee_validation.py:98-107 | A join date of 1999-09-15 fails the join-date check; the message mentions "join_date" and "2000". |
| Scenarios.LowPaidRejected | tests/test_employee_validation.py:78-86 | Three IT employees paid 250001–250003 have valid rows but fail the department-mean check; the message mentions "平均給与". |
| Scenarios.LowScoringManagerRejected | tests/test_employee_validation.py:88-96 | Manager 1003, scoring 3.3, fails the manager check (1004, scoring 3.2, manages nobody); the message mentions "管理職". |
| Scenarios.WithoutSalaryRejected | tests/test_employee_validation.py:109-117 | A table without a `salary` column is rejected as missing that column, and the message mentions "salary". |
| Scenarios.AgeBoundaries | tests/test_employee_validation.py:148-171 | The first employee's age is accepted exactly from 18 to 65. An accepted age reads back unchanged; a rejected one gives a message mentioning "age". |
| Scenarios.ScoreBoundaries | tests/test_employee_validation.py:173-196 | The first employee's score is accepted exactly from 1.0 to 5.0. An accepted score reads back unchanged; a rejected one gives a message mentioning "performance_score". |
| Scenarios.SchemaConstructionFailureReported | tests/test_employee_validation.py:198-221 | An exception raised while building the schema fails the call. There is no table and no summary, and the message mentions "予期しないエラー" and the exception's text. |
| Scenarios.AloneRejected | pandera_validation/schemas/employee.py:103-109 | A one-employee table that is valid row by row and by department is still rejected by the manager check, because nobody manages anybody. |

## Left out

- Logging (`logger.info` and `logger.error` in `validate_employee_data`) has no effect on the result and is not modelled. The per-department `groupby(...).size()` is computed only for the log, so it is not modelled either.
- dtype inference and coercion are not modelled; each cell carries its own type. In pandas, a `None` in an integer column turns the column into floats, and pandera then coerces or rejects it. The model instead checks the declared dtype cell by cell and treats missing cells as nulls.
- Floating point is modelled by exact reals. Means are computed without rounding, and `NaN` appears only as the mean or minimum of nothing.
- Schema.Message: the exact text of pandera's `SchemaError` is not modelled. The model proves only what the message contains: the column name, the check's name or error text, the dtype name, and "unique" for duplicates. The "unique" wording of the duplicates message is taken from what the repository's test expects (tests/test_employee_validation.py:54), not from a known message format.
- The `manager_id` check is modelled by its documented intent: the manager is absent, or differs from the same row's `employee_id`. How pandera passes arguments to an element-wise lambda that takes two arguments is not modelled.
- Exceptions other than `SchemaError` are a parameter of `ValidateEmployeeData`. `pytest`'s `monkeypatch` is represented by passing such a fault; where it would be raised is not modelled.
- A frame check whose own code raises an exception is not modelled. The two frame checks are total over the frames the model admits.
- Lazy validation (collecting every error) is not modelled: `validate` is called with its default, which stops at the first error.
- The command-line and sample scripts are not part of this model: `validate_employee_data.py`, `sample_validation.py`, `validate_test_cases.py`, `validate_invalid_data.py` and `check_env.py`.
- The manager-score check on an empty selection is not read as vacuously true, because that is not what the code does. The minimum of an empty selection is NaN and `NaN >= 3.5` is false, so a table in which nobody manages anybody is rejected (`EmployeeSchema.UnmanagedTableRejected`, `Scenarios.AloneRejected`).
