/** The employee evaluation entity and its repository. The database table is a
    sequence of rows in insertion order; each query is a sequence operation. */
module Evaluations {
  import opened Wrappers
  import opened Ordering

  /** `EmployeeEvaluation`. Dates are ticks; a null string or a null
      `UpdatedAt` is `None`. */
  datatype EmployeeEvaluation = EmployeeEvaluation(
    id: int,
    employeeId: int,
    evaluationScore: int,
    feedback: Option<string>,
    goals: Option<string>,
    achievements: Option<string>,
    areasForImprovement: Option<string>,
    evaluationDate: int,
    evaluationPeriod: Option<string>,
    evaluatedBy: Option<string>,
    createdAt: int,
    updatedAt: Option<int>)

  function EvaluationDate(e: EmployeeEvaluation): int {
    e.evaluationDate
  }

  predicate HasId(store: seq<EmployeeEvaluation>, id: int) {
    exists i :: 0 <= i < |store| && store[i].id == id
  }

  /** `Id` is the table's primary key. */
  predicate UniqueIds(store: seq<EmployeeEvaluation>) {
    forall i, j :: 0 <= i < j < |store| ==> store[i].id != store[j].id
  }

  /** `GetByIdAsync`: the first row with that id, or null. */
  function GetById(store: seq<EmployeeEvaluation>, id: int): (r: Option<EmployeeEvaluation>)
    ensures r.None? <==> !HasId(store, id)
    ensures r.Some? ==> r.value in store && r.value.id == id
  {
    if |store| == 0 then None
    else if store[0].id == id then Some(store[0])
    else
      assert forall i :: 0 < i < |store| ==> store[i] == store[1..][i - 1];
      GetById(store[1..], id)
  }

  /** With ids unique, every stored row is what its id looks up. */
  lemma {:induction false} GetByIdOfStored(store: seq<EmployeeEvaluation>, i: int)
    requires UniqueIds(store) && 0 <= i < |store|
    ensures GetById(store, store[i].id) == Some(store[i])
    decreases |store|
  {
    if i > 0 {
      assert store[0].id != store[i].id;
      assert store[1..][i - 1] == store[i];
      GetByIdOfStored(store[1..], i - 1);
    }
  }

  /** `CreateAsync`: the row is appended and returned. The identity value the
      database gives it is the parameter `newId`. */
  function Create(store: seq<EmployeeEvaluation>, e: EmployeeEvaluation, newId: int)
    : (r: (seq<EmployeeEvaluation>, EmployeeEvaluation))
    ensures |r.0| == |store| + 1 && r.0[..|store|] == store && r.0[|store|] == r.1
    ensures r.1 == e.(id := newId)
  {
    var created := e.(id := newId);
    (store + [created], created)
  }

  /** A fresh identity keeps the key unique and finds the new row. */
  lemma CreateFindsNewRow(store: seq<EmployeeEvaluation>, e: EmployeeEvaluation, newId: int)
    requires UniqueIds(store) && !HasId(store, newId)
    ensures UniqueIds(Create(store, e, newId).0)
    ensures GetById(Create(store, e, newId).0, newId) == Some(e.(id := newId))
    ensures forall id :: id != newId ==> GetById(Create(store, e, newId).0, id) == GetById(store, id)
  {
    var s := Create(store, e, newId).0;
    GetByIdOfStored(s, |store|);
    forall id | id != newId
      ensures GetById(s, id) == GetById(store, id)
    {
      GetByIdAppend(store, e.(id := newId), id);
    }
  }

  lemma {:induction false} GetByIdAppend(store: seq<EmployeeEvaluation>, x: EmployeeEvaluation, id: int)
    requires x.id != id
    ensures GetById(store + [x], id) == GetById(store, id)
    decreases |store|
  {
    if |store| == 0 {
      assert GetById([x][1..], id) == None;
    } else {
      assert (store + [x])[1..] == store[1..] + [x];
      GetByIdAppend(store[1..], x, id);
    }
  }

  /** Every row whose id is `e.id` replaced by `e`. */
  function ReplaceById(store: seq<EmployeeEvaluation>, e: EmployeeEvaluation): (r: seq<EmployeeEvaluation>)
    ensures |r| == |store|
    ensures forall i :: 0 <= i < |store| ==> r[i] == (if store[i].id == e.id then e else store[i])
  {
    if |store| == 0 then []
    else [if store[0].id == e.id then e else store[0]] + ReplaceById(store[1..], e)
  }

  /** `UpdateAsync`: stamps `UpdatedAt` with the clock and saves the row under
      its key; the stamped evaluation is returned. */
  function Update(store: seq<EmployeeEvaluation>, e: EmployeeEvaluation, now: int)
    : (r: (seq<EmployeeEvaluation>, EmployeeEvaluation))
    ensures r.1.updatedAt == Some(now) && r.1.(updatedAt := e.updatedAt) == e
    ensures |r.0| == |store|
    ensures forall i :: 0 <= i < |store| && store[i].id != e.id ==> r.0[i] == store[i]
    ensures forall i :: 0 <= i < |store| && store[i].id == e.id ==> r.0[i] == r.1
  {
    var stamped := e.(updatedAt := Some(now));
    (ReplaceById(store, stamped), stamped)
  }

  /** After an update of a stored id, looking the id up gives the stamped row,
      every other id gives what it gave before, and the key stays unique. */
  lemma UpdateLookups(store: seq<EmployeeEvaluation>, e: EmployeeEvaluation, now: int, id: int)
    requires UniqueIds(store) && HasId(store, e.id)
    ensures UniqueIds(Update(store, e, now).0)
    ensures GetById(Update(store, e, now).0, e.id) == Some(Update(store, e, now).1)
    ensures id != e.id ==> GetById(Update(store, e, now).0, id) == GetById(store, id)
  {
    var stamped := e.(updatedAt := Some(now));
    var s := ReplaceById(store, stamped);
    ReplaceByIdKeepsKeys(store, stamped);
    var i :| 0 <= i < |store| && store[i].id == e.id;
    assert s[i] == stamped;
    GetByIdOfStored(s, i);
    if id != e.id {
      GetByIdReplaced(store, stamped, id);
    }
  }

  /** Replacing rows by a row with the same key leaves every key in place. */
  lemma ReplaceByIdKeepsKeys(store: seq<EmployeeEvaluation>, e: EmployeeEvaluation)
    requires UniqueIds(store)
    ensures UniqueIds(ReplaceById(store, e))
  {
    var s := ReplaceById(store, e);
    assert forall i :: 0 <= i < |s| ==> s[i].id == store[i].id;
  }

  lemma {:induction false} GetByIdReplaced(store: seq<EmployeeEvaluation>, e: EmployeeEvaluation, id: int)
    requires id != e.id
    ensures GetById(ReplaceById(store, e), id) == GetById(store, id)
    decreases |store|
  {
    if |store| > 0 {
      assert ReplaceById(store, e)[1..] == ReplaceById(store[1..], e);
      GetByIdReplaced(store[1..], e, id);
    }
  }

  /** `DeleteAsync`: removes the row with that key; an absent id changes
      nothing. */
  function Delete(store: seq<EmployeeEvaluation>, id: int): (r: seq<EmployeeEvaluation>)
    ensures !HasId(r, id)
    ensures forall x :: x in r <==> x in store && x.id != id
    ensures !HasId(store, id) ==> r == store
  {
    if |store| == 0 then []
    else
      assert !HasId(store, id) ==> store[0].id != id && !HasId(store[1..], id);
      var rest := Delete(store[1..], id);
      if store[0].id == id then rest
      else
        assert !HasId(store, id) ==> [store[0]] + rest == [store[0]] + store[1..] == store;
        [store[0]] + rest
  }

  /** With a unique key, deleting a stored id removes exactly one row and keeps
      the others in order. */
  lemma {:induction false} DeleteRemovesOne(store: seq<EmployeeEvaluation>, i: int)
    requires UniqueIds(store) && 0 <= i < |store|
    ensures Delete(store, store[i].id) == store[..i] + store[i + 1..]
    decreases |store|
  {
    var id := store[i].id;
    var rest := store[1..];
    DeleteStep(store, id);
    if i == 0 {
      assert !HasId(rest, id) by {
        forall j | 0 <= j < |rest| ensures rest[j].id != id {
          assert rest[j] == store[j + 1];
        }
      }
      assert store[..0] + store[1..] == rest;
    } else {
      UniqueIdsTail(store);
      assert rest[i - 1] == store[i];
      DeleteRemovesOne(rest, i - 1);
      SpliceTail(store, i);
    }
  }

  /** Removing position `i > 0` commutes with dropping the first element. */
  lemma SpliceTail<T>(s: seq<T>, i: int)
    requires 0 < i < |s|
    ensures [s[0]] + (s[1..][..i - 1] + s[1..][i..]) == s[..i] + s[i + 1..]
  {
    assert s[1..][..i - 1] == s[1..i] && s[1..][i..] == s[i + 1..];
    assert s[..i] == [s[0]] + s[1..i];
  }

  /** `Delete` looks at the first row and recurses on the rest. */
  lemma DeleteStep(store: seq<EmployeeEvaluation>, id: int)
    requires |store| > 0
    ensures Delete(store, id) ==
      if store[0].id == id then Delete(store[1..], id) else [store[0]] + Delete(store[1..], id)
  {
  }

  /** Dropping the first row keeps the ids unique. */
  lemma UniqueIdsTail(store: seq<EmployeeEvaluation>)
    requires UniqueIds(store) && |store| > 0
    ensures UniqueIds(store[1..])
  {
    var rest := store[1..];
    forall a, b | 0 <= a < b < |rest| ensures rest[a].id != rest[b].id {
      assert rest[a] == store[a + 1] && rest[b] == store[b + 1];
    }
  }

  /** The rows of one employee, in table order. */
  function OfEmployee(store: seq<EmployeeEvaluation>, employeeId: int): (r: seq<EmployeeEvaluation>)
    ensures |r| <= |store|
    ensures forall x :: x in r <==> x in store && x.employeeId == employeeId
  {
    if |store| == 0 then []
    else
      assert store == [store[0]] + store[1..];
      (if store[0].employeeId == employeeId then [store[0]] else []) + OfEmployee(store[1..], employeeId)
  }

  /** `GetByEmployeeIdAsync`: that employee's rows, latest evaluation date
      first. */
  function GetByEmployeeId(store: seq<EmployeeEvaluation>, employeeId: int): (r: seq<EmployeeEvaluation>)
    ensures SortedDesc(r, EvaluationDate)
    ensures forall x :: x in r <==> x in store && x.employeeId == employeeId
    ensures multiset(r) == multiset(OfEmployee(store, employeeId))
  {
    var r := SortDesc(OfEmployee(store, employeeId), EvaluationDate);
    assert forall x :: x in r <==> x in multiset(r);
    r
  }

  /** Rows of one employee evaluated on the same date keep their table order. */
  lemma SameDateKeepsTableOrder(store: seq<EmployeeEvaluation>, employeeId: int, date: int)
    ensures WithKey(GetByEmployeeId(store, employeeId), EvaluationDate, date)
         == WithKey(OfEmployee(store, employeeId), EvaluationDate, date)
  {
    SortDescStable(OfEmployee(store, employeeId), EvaluationDate, date);
  }

  /** `GetLatestByEmployeeIdAsync`: the head of `GetByEmployeeIdAsync`, null
      when the employee has no evaluation. */
  function GetLatestByEmployeeId(store: seq<EmployeeEvaluation>, employeeId: int)
    : (r: Option<EmployeeEvaluation>)
    ensures r.None? <==> forall i :: 0 <= i < |store| ==> store[i].employeeId != employeeId
    ensures r.Some? ==> r.value in store && r.value.employeeId == employeeId
    ensures r.Some? ==> forall i :: 0 <= i < |store| && store[i].employeeId == employeeId ==>
      store[i].evaluationDate <= r.value.evaluationDate
  {
    var rows := GetByEmployeeId(store, employeeId);
    if |rows| == 0 then
      assert forall i :: 0 <= i < |store| ==> store[i] in store;
      None
    else
      forall i | 0 <= i < |store| && store[i].employeeId == employeeId
        ensures store[i].evaluationDate <= rows[0].evaluationDate
      {
        assert store[i] in rows;
        var j :| 0 <= j < |rows| && rows[j] == store[i];
        assert j == 0 || EvaluationDate(rows[0]) >= EvaluationDate(rows[j]);
      }
      assert rows[0] in rows;
      Some(rows[0])
  }

  /** `GetByPeriodAsync`: exact match on the period string, in table order. */
  function GetByPeriod(store: seq<EmployeeEvaluation>, period: Option<string>): (r: seq<EmployeeEvaluation>)
    ensures |r| <= |store|
    ensures forall x :: x in r <==> x in store && x.evaluationPeriod == period
  {
    if |store| == 0 then []
    else
      assert store == [store[0]] + store[1..];
      (if store[0].evaluationPeriod == period then [store[0]] else []) + GetByPeriod(store[1..], period)
  }

  /** `GetByScoreRangeAsync`: scores in `[minScore, maxScore]`, bounds
      included, in table order. */
  function GetByScoreRange(store: seq<EmployeeEvaluation>, minScore: int, maxScore: int)
    : (r: seq<EmployeeEvaluation>)
    ensures |r| <= |store|
    ensures forall x :: x in r <==> x in store && minScore <= x.evaluationScore <= maxScore
  {
    if |store| == 0 then []
    else
      assert store == [store[0]] + store[1..];
      var keep := minScore <= store[0].evaluationScore <= maxScore;
      (if keep then [store[0]] else []) + GetByScoreRange(store[1..], minScore, maxScore)
  }

  /** A range covering every stored score returns the whole table, in order. */
  lemma {:induction false} ScoreRangeCoveringAll(store: seq<EmployeeEvaluation>, minScore: int, maxScore: int)
    requires forall i :: 0 <= i < |store| ==> minScore <= store[i].evaluationScore <= maxScore
    ensures GetByScoreRange(store, minScore, maxScore) == store
    decreases |store|
  {
    if |store| > 0 {
      var rest := store[1..];
      assert forall i :: 0 <= i < |rest| ==> rest[i] == store[i + 1];
      ScoreRangeCoveringAll(rest, minScore, maxScore);
      assert GetByScoreRange(store, minScore, maxScore) == [store[0]] + GetByScoreRange(rest, minScore, maxScore);
      assert store == [store[0]] + rest;
    }
  }

  /** `ExistsAsync`: whether any row has that id. */
  function Exists(store: seq<EmployeeEvaluation>, id: int): (b: bool)
    ensures b <==> HasId(store, id)
    ensures b <==> GetById(store, id).Some?
  {
    if |store| == 0 then false
    else
      assert forall i :: 0 < i < |store| ==> store[i] == store[1..][i - 1];
      store[0].id == id || Exists(store[1..], id)
  }
}
