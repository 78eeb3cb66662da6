/** `EmployeePerformanceEvaluationService`. The employee repository is the
    lookup function `employees`; an `ArgumentException` is a `Failure` carrying
    its message; `DateTime.UtcNow` is the `Clock` parameter. */
module PerformanceEvaluations {
  import opened Wrappers
  import opened Text
  import opened Ordering
  import opened Evaluations
  import opened EvaluationDtos

  datatype Employee = Employee(id: int, name: Option<string>)

  /** A reading of `DateTime.UtcNow`: ticks and the calendar year and month. */
  datatype Clock = Clock(ticks: int, year: int, month: int)

  predicate ValidClock(c: Clock) {
    1 <= c.year <= 9999 && 1 <= c.month <= 12
  }

  function EmployeeNotFound(id: int): string {
    "Employee with ID " + IntToString(id) + " not found."
  }

  function EvaluationNotFound(id: int): string {
    "Evaluation with ID " + IntToString(id) + " not found."
  }

  /** The guard every employee-scoped operation starts with; with the mapping
      to a DTO left out it is also `GetEmployeeByIdAsync`. */
  function FindEmployee(employees: int -> Option<Employee>, id: int): (r: Result<Employee, string>)
    ensures r.Success? <==> employees(id).Some?
    ensures r.Success? ==> r.value == employees(id).value
    ensures r.Failure? ==> r.error == EmployeeNotFound(id)
  {
    match employees(id)
    case None => Failure(EmployeeNotFound(id))
    case Some(e) => Success(e)
  }

  /** The quarter of a month, `(month - 1) / 3 + 1`. */
  function Quarter(month: int): (q: int)
    requires 1 <= month <= 12
    ensures 1 <= q <= 4
    ensures 3 * (q - 1) < month <= 3 * q
  {
    (month - 1) / 3 + 1
  }

  lemma QuarterBoundaries(month: int)
    requires 1 <= month <= 12
    ensures month <= 3 <==> Quarter(month) == 1
    ensures month >= 10 <==> Quarter(month) == 4
  {
  }

  /** The default period, `"Q{quarter} {year}"`. */
  function PeriodLabel(c: Clock): (p: string)
    requires ValidClock(c)
    ensures 4 <= |p| <= 7
    ensures p[0] == 'Q' && p[2] == ' '
    ensures '1' <= p[1] <= '4'
    ensures p[1] == DigitChar(Quarter(c.month))
    ensures p[3..] == NatToString(c.year)
  {
    assert Pow10(4) == 10000 by {
      assert Pow10(1) == 10 && Pow10(2) == 100 && Pow10(3) == 1000;
    }
    NatToStringLength(c.year, 4, 10000);
    "Q" + [DigitChar(Quarter(c.month))] + " " + NatToString(c.year)
  }

  lemma PeriodLabelExample()
    ensures PeriodLabel(Clock(0, 2025, 11)) == "Q4 2025"
  {
    var y := NatToString(2025);
    assert NatToString(202) == NatToString(20) + ['2'];
    assert y == NatToString(202) + ['5'];
    assert NatToString(20) == NatToString(2) + ['0'];
  }

  const DefaultScore := 85
  const DefaultFeedback := "Excelente desempenho"
  const DefaultEvaluator := "Sistema"

  /** The evaluation reported for an employee who has none on record. */
  function DefaultEvaluation(employeeId: int, employee: Employee, c: Clock): EvaluationView
    requires ValidClock(c)
  {
    EvaluationView(0, employeeId, employee.name, DefaultScore, Some(DefaultFeedback), None, None, None,
                   c.ticks, Some(PeriodLabel(c)), Some(DefaultEvaluator), c.ticks, None)
  }

  /** The default evaluation passes the view DTO's own validation: its score is
      in 0..100, its feedback 20 characters and its period at most 7. */
  lemma DefaultEvaluationIsValid(employeeId: int, employee: Employee, c: Clock)
    requires ValidClock(c)
    ensures ValidView(DefaultEvaluation(employeeId, employee, c))
  {
    var v := DefaultEvaluation(employeeId, employee, c);
    assert !AllWhiteSpace(DefaultFeedback) by { assert !IsWhiteSpace(DefaultFeedback[0]); }
    assert !AllWhiteSpace(DefaultEvaluator) by { assert !IsWhiteSpace(DefaultEvaluator[0]); }
    assert !AllWhiteSpace(PeriodLabel(c)) by { assert !IsWhiteSpace(PeriodLabel(c)[0]); }
    assert |DefaultFeedback| == 20;
    CreateValidity(FormOfView(v));
    ViewValidity(v);
  }

  /** The stored row as a view: the mapper copies the properties of the same
      name; the employee's name is set afterwards. */
  function ToView(e: EmployeeEvaluation, name: Option<string>): EvaluationView {
    EvaluationView(e.id, e.employeeId, name, e.evaluationScore, e.feedback, e.goals, e.achievements,
                   e.areasForImprovement, e.evaluationDate, e.evaluationPeriod, e.evaluatedBy,
                   e.createdAt, e.updatedAt)
  }

  /** The form part of a stored row. */
  function FormOfRow(e: EmployeeEvaluation): EvaluationForm {
    EvaluationForm(e.employeeId, e.evaluationScore, e.feedback, e.goals, e.achievements,
                   e.areasForImprovement, e.evaluationDate, e.evaluationPeriod, e.evaluatedBy)
  }

  /** `_mapper.Map(form, existing)`: the form's properties overwrite the row's;
      `Id`, `CreatedAt` and `UpdatedAt` are not on the form and stay. */
  function MapOnto(f: EvaluationForm, existing: EmployeeEvaluation): (e: EmployeeEvaluation)
    ensures FormOfRow(e) == f
    ensures e.id == existing.id && e.createdAt == existing.createdAt && e.updatedAt == existing.updatedAt
  {
    existing.(employeeId := f.employeeId, evaluationScore := f.evaluationScore, feedback := f.feedback,
              goals := f.goals, achievements := f.achievements,
              areasForImprovement := f.areasForImprovement, evaluationDate := f.evaluationDate,
              evaluationPeriod := f.evaluationPeriod, evaluatedBy := f.evaluatedBy)
  }

  /** `EvaluatePerformanceAsync`: the employee's latest evaluation, or the
      default one when there is none. */
  function EvaluatePerformance(employees: int -> Option<Employee>, store: seq<EmployeeEvaluation>,
                               employeeId: int, c: Clock): (r: Result<EvaluationView, string>)
    requires ValidClock(c)
    ensures employees(employeeId).None? ==> r == Failure(EmployeeNotFound(employeeId))
    ensures employees(employeeId).Some? ==> r.Success?
    ensures r.Success? ==> r.value.employeeId == employeeId && r.value.employeeName == employees(employeeId).value.name
    ensures r.Success? && (forall i :: 0 <= i < |store| ==> store[i].employeeId != employeeId) ==>
      r.value == DefaultEvaluation(employeeId, employees(employeeId).value, c)
    ensures r.Success? && (exists i :: 0 <= i < |store| && store[i].employeeId == employeeId) ==>
      exists i :: 0 <= i < |store| && store[i].employeeId == employeeId && r.value == ToView(store[i], r.value.employeeName)
        && forall j :: 0 <= j < |store| && store[j].employeeId == employeeId ==> store[j].evaluationDate <= store[i].evaluationDate
  {
    match FindEmployee(employees, employeeId)
    case Failure(message) => Failure(message)
    case Success(employee) =>
      match GetLatestByEmployeeId(store, employeeId)
      case None => Success(DefaultEvaluation(employeeId, employee, c))
      case Some(latest) =>
        assert exists i :: 0 <= i < |store| && store[i] == latest;
        Success(ToView(latest, employee.name))
  }

  /** `CreateEvaluationAsync`: for a known employee, a new row carrying the
      form, stamped with the clock, is appended under the identity `newId`. */
  function CreateEvaluation(employees: int -> Option<Employee>, store: seq<EmployeeEvaluation>,
                            form: EvaluationForm, c: Clock, newId: int)
    : (r: Result<(seq<EmployeeEvaluation>, EvaluationView), string>)
    ensures employees(form.employeeId).None? ==> r == Failure(EmployeeNotFound(form.employeeId))
    ensures employees(form.employeeId).Some? ==> r.Success?
    ensures r.Success? ==> |r.value.0| == |store| + 1 && r.value.0[..|store|] == store
    ensures r.Success? ==> var row := r.value.0[|store|];
      && FormOfRow(row) == form && row.id == newId && row.createdAt == c.ticks && row.updatedAt.None?
      && r.value.1 == ToView(row, employees(form.employeeId).value.name)
  {
    match FindEmployee(employees, form.employeeId)
    case Failure(message) => Failure(message)
    case Success(employee) =>
      var blank := EmployeeEvaluation(0, 0, 0, None, None, None, None, 0, None, None, c.ticks, None);
      var (saved, created) := Create(store, MapOnto(form, blank), newId);
      Success((saved, ToView(created, employee.name)))
  }

  /** A created evaluation is found under its new identity. */
  lemma CreatedEvaluationIsFound(employees: int -> Option<Employee>, store: seq<EmployeeEvaluation>,
                                 form: EvaluationForm, c: Clock, newId: int)
    requires UniqueIds(store) && !HasId(store, newId)
    requires employees(form.employeeId).Some?
    ensures var r := CreateEvaluation(employees, store, form, c, newId);
      && UniqueIds(r.value.0)
      && GetById(r.value.0, newId).Some?
      && FormOfRow(GetById(r.value.0, newId).value) == form
  {
    var r := CreateEvaluation(employees, store, form, c, newId);
    var blank := EmployeeEvaluation(0, 0, 0, None, None, None, None, 0, None, None, c.ticks, None);
    CreateFindsNewRow(store, MapOnto(form, blank), newId);
  }

  /** `UpdateEvaluationAsync`: the evaluation is looked up first, then the
      employee; the form is mapped onto the stored row, which is saved with
      `UpdatedAt` set to the clock. */
  function UpdateEvaluation(employees: int -> Option<Employee>, store: seq<EmployeeEvaluation>,
                            id: int, form: EvaluationForm, c: Clock)
    : (r: Result<(seq<EmployeeEvaluation>, EvaluationView), string>)
    ensures !HasId(store, id) ==> r == Failure(EvaluationNotFound(id))
    ensures HasId(store, id) && employees(form.employeeId).None? ==> r == Failure(EmployeeNotFound(form.employeeId))
    ensures HasId(store, id) && employees(form.employeeId).Some? ==> r.Success?
    ensures r.Success? ==> |r.value.0| == |store|
    ensures r.Success? ==> forall i :: 0 <= i < |store| && store[i].id != id ==> r.value.0[i] == store[i]
  {
    match GetById(store, id)
    case None => Failure(EvaluationNotFound(id))
    case Some(existing) =>
      match FindEmployee(employees, form.employeeId)
      case Failure(message) => Failure(message)
      case Success(employee) =>
        var edited := MapOnto(form, existing).(updatedAt := Some(c.ticks));
        var (saved, updated) := Update(store, edited, c.ticks);
        Success((saved, ToView(updated, employee.name)))
  }

  /** After a successful update the row under `id` carries the form, its
      original creation time and the clock as `UpdatedAt`; every other id
      looks up what it did before. */
  lemma UpdatedEvaluationIsStored(employees: int -> Option<Employee>, store: seq<EmployeeEvaluation>,
                                  id: int, form: EvaluationForm, c: Clock, other: int)
    requires UniqueIds(store) && HasId(store, id)
    requires employees(form.employeeId).Some?
    ensures var r := UpdateEvaluation(employees, store, id, form, c);
      && UniqueIds(r.value.0)
      && GetById(r.value.0, id).Some?
      && var row := GetById(r.value.0, id).value;
      && FormOfRow(row) == form && row.id == id
      && row.createdAt == GetById(store, id).value.createdAt && row.updatedAt == Some(c.ticks)
      && r.value.1 == ToView(row, employees(form.employeeId).value.name)
      && (other != id ==> GetById(r.value.0, other) == GetById(store, other))
  {
    var existing := GetById(store, id).value;
    var edited := MapOnto(form, existing).(updatedAt := Some(c.ticks));
    UpdateLookups(store, edited, c.ticks, other);
  }

  /** The views of some rows, with one employee name. */
  function Views(rows: seq<EmployeeEvaluation>, name: Option<string>): (vs: seq<EvaluationView>)
    ensures |vs| == |rows|
    ensures forall i :: 0 <= i < |rows| ==> vs[i] == ToView(rows[i], name)
  {
    if |rows| == 0 then [] else [ToView(rows[0], name)] + Views(rows[1..], name)
  }

  /** `GetEvaluationsByEmployeeIdAsync`: the employee's evaluations, latest
      first, named after the employee. */
  function GetEvaluationsByEmployeeId(employees: int -> Option<Employee>, store: seq<EmployeeEvaluation>,
                                      employeeId: int): (r: Result<seq<EvaluationView>, string>)
    ensures employees(employeeId).None? ==> r == Failure(EmployeeNotFound(employeeId))
    ensures employees(employeeId).Some? ==> r.Success?
    ensures r.Success? ==> |r.value| == |OfEmployee(store, employeeId)|
    ensures r.Success? ==> forall i, j :: 0 <= i < j < |r.value| ==> r.value[i].evaluationDate >= r.value[j].evaluationDate
    ensures r.Success? ==> forall i :: 0 <= i < |r.value| ==>
      r.value[i].employeeId == employeeId && r.value[i].employeeName == employees(employeeId).value.name
    ensures r.Success? ==> exists rows ::
      multiset(rows) == multiset(OfEmployee(store, employeeId)) && r.value == Views(rows, employees(employeeId).value.name)
  {
    match FindEmployee(employees, employeeId)
    case Failure(message) => Failure(message)
    case Success(employee) =>
      EmployeeViews(store, employeeId, employee.name);
      Success(Views(GetByEmployeeId(store, employeeId), employee.name))
  }

  /** The views of an employee's rows, latest first: one per row of that
      employee, each carrying the employee's id and the given name. */
  lemma EmployeeViews(store: seq<EmployeeEvaluation>, employeeId: int, name: Option<string>)
    ensures var vs := Views(GetByEmployeeId(store, employeeId), name);
      && |vs| == |OfEmployee(store, employeeId)|
      && (forall i, j :: 0 <= i < j < |vs| ==> vs[i].evaluationDate >= vs[j].evaluationDate)
      && (forall i :: 0 <= i < |vs| ==> vs[i].employeeId == employeeId && vs[i].employeeName == name)
      && exists rows :: multiset(rows) == multiset(OfEmployee(store, employeeId)) && vs == Views(rows, name)
  {
    var rows := GetByEmployeeId(store, employeeId);
    assert |rows| == |multiset(rows)| == |OfEmployee(store, employeeId)|;
    assert forall i :: 0 <= i < |rows| ==> rows[i] in rows;
  }

  /** `GetLatestEvaluationByEmployeeIdAsync`: null, not an error, when a known
      employee has no evaluation. */
  function GetLatestEvaluation(employees: int -> Option<Employee>, store: seq<EmployeeEvaluation>,
                               employeeId: int): (r: Result<Option<EvaluationView>, string>)
    ensures employees(employeeId).None? ==> r == Failure(EmployeeNotFound(employeeId))
    ensures employees(employeeId).Some? ==> r.Success?
    ensures r.Success? ==> (r.value.None? <==> forall i :: 0 <= i < |store| ==> store[i].employeeId != employeeId)
    ensures r.Success? && r.value.Some? ==>
      r.value.value.employeeId == employeeId && r.value.value.employeeName == employees(employeeId).value.name
  {
    match FindEmployee(employees, employeeId)
    case Failure(message) => Failure(message)
    case Success(employee) =>
      match GetLatestByEmployeeId(store, employeeId)
      case None => Success(None)
      case Some(latest) => Success(Some(ToView(latest, employee.name)))
  }

  /** The evaluation `EvaluatePerformanceAsync` reports is the latest one when
      there is one, and the default exactly when there is none. */
  lemma EvaluatePerformanceIsLatestOrDefault(employees: int -> Option<Employee>, store: seq<EmployeeEvaluation>,
                                             employeeId: int, c: Clock)
    requires ValidClock(c)
    ensures var latest := GetLatestEvaluation(employees, store, employeeId);
      var evaluated := EvaluatePerformance(employees, store, employeeId, c);
      && (latest.Failure? <==> evaluated.Failure?)
      && (latest.Success? && latest.value.Some? ==> evaluated == Success(latest.value.value))
      && (latest == Success(None) ==>
            evaluated == Success(DefaultEvaluation(employeeId, employees(employeeId).value, c)))
  {
  }

  /** `DeleteEvaluationAsync`: an unknown id is an error; otherwise exactly
      that evaluation is removed. */
  function DeleteEvaluation(store: seq<EmployeeEvaluation>, id: int): (r: Result<seq<EmployeeEvaluation>, string>)
    ensures !HasId(store, id) ==> r == Failure(EvaluationNotFound(id))
    ensures HasId(store, id) ==> r.Success?
    ensures r.Success? ==> !HasId(r.value, id) && forall x :: x in r.value <==> x in store && x.id != id
    ensures r.Success? && UniqueIds(store) ==> |r.value| == |store| - 1
  {
    match GetById(store, id)
    case None => Failure(EvaluationNotFound(id))
    case Some(existing) =>
      assert UniqueIds(store) ==> |Delete(store, id)| == |store| - 1 by {
        var i :| 0 <= i < |store| && store[i] == existing;
        if UniqueIds(store) {
          DeleteRemovesOne(store, i);
        }
      }
      Success(Delete(store, id))
  }
}
