/** The evaluation DTOs and the data annotations that validate them. Each
    property's attributes are kept as data, in declaration order, so that the
    three DTO classes can be compared attribute by attribute. */
module EvaluationDtos {
  import opened Wrappers
  import opened Text

  /** A validation attribute on a DTO property. */
  datatype Annotation = Required | Range(lo: int, hi: int) | MinLength(n: nat) | MaxLength(n: nat)

  /** A property value as the validator receives it: an `int` or a `DateTime`
      (ticks), a `DateTime?`, or a string that may be null. */
  datatype Value = Number(n: int) | NullableNumber(m: Option<int>) | Str(s: Option<string>)

  /** `attribute.IsValid(value)`. `[Required]` always holds for a value type;
      for a string it rejects null, empty and white-space-only text. The
      length attributes count `string.Length`, in UTF-16 code units. The
      length and range attributes accept null. */
  predicate Satisfies(v: Value, a: Annotation) {
    match a
    case Required => v.Number? || (v.NullableNumber? && v.m.Some?) || (v.Str? && !IsNullOrWhiteSpace(v.s))
    case Range(lo, hi) =>
      (v.Number? ==> lo <= v.n <= hi) && (v.NullableNumber? && v.m.Some? ==> lo <= v.m.value <= hi)
    case MinLength(n) => v.Str? && v.s.Some? ==> Utf16Length(v.s.value) >= n
    case MaxLength(n) => v.Str? && v.s.Some? ==> Utf16Length(v.s.value) <= n
  }

  /** Every property satisfies every attribute declared on it. */
  predicate Conforms(values: seq<Value>, annotations: seq<seq<Annotation>>) {
    && |values| == |annotations|
    && forall i, a :: 0 <= i < |values| && a in annotations[i] ==> Satisfies(values[i], a)
  }

  /** The properties of `CreateEmployeeEvaluationDTO`, which
      `UpdateEmployeeEvaluationDTO` repeats. */
  datatype EvaluationForm = EvaluationForm(
    employeeId: int,
    evaluationScore: int,
    feedback: Option<string>,
    goals: Option<string>,
    achievements: Option<string>,
    areasForImprovement: Option<string>,
    evaluationDate: int,
    evaluationPeriod: Option<string>,
    evaluatedBy: Option<string>)

  function FormValues(f: EvaluationForm): seq<Value> {
    [ Number(f.employeeId), Number(f.evaluationScore), Str(f.feedback), Str(f.goals),
      Str(f.achievements), Str(f.areasForImprovement), Number(f.evaluationDate),
      Str(f.evaluationPeriod), Str(f.evaluatedBy) ]
  }

  /** The attributes of `CreateEmployeeEvaluationDTO`, property by property. */
  const CreateAnnotations: seq<seq<Annotation>> := [
    [Required],                                   // EmployeeId
    [Required, Range(0, 100)],                    // EvaluationScore
    [Required, MinLength(10), MaxLength(1000)],   // Feedback
    [MaxLength(500)],                             // Goals
    [MaxLength(500)],                             // Achievements
    [MaxLength(500)],                             // AreasForImprovement
    [Required],                                   // EvaluationDate
    [Required, MaxLength(20)],                    // EvaluationPeriod
    [Required, MaxLength(100)]                    // EvaluatedBy
  ]

  /** The attributes of `UpdateEmployeeEvaluationDTO`, property by property. */
  const UpdateAnnotations: seq<seq<Annotation>> := [
    [Required],
    [Required, Range(0, 100)],
    [Required, MinLength(10), MaxLength(1000)],
    [MaxLength(500)],
    [MaxLength(500)],
    [MaxLength(500)],
    [Required],
    [Required, MaxLength(20)],
    [Required, MaxLength(100)]
  ]

  predicate ValidCreate(f: EvaluationForm) {
    Conforms(FormValues(f), CreateAnnotations)
  }

  predicate ValidUpdate(f: EvaluationForm) {
    Conforms(FormValues(f), UpdateAnnotations)
  }

  /** A present string of at most `n` UTF-16 code units, or null. */
  predicate AtMost(s: Option<string>, n: nat) {
    s.Some? ==> Utf16Length(s.value) <= n
  }

  /** A non-blank string of at most `n` UTF-16 code units. */
  predicate Filled(s: Option<string>, n: nat) {
    s.Some? && !AllWhiteSpace(s.value) && Utf16Length(s.value) <= n
  }

  /** What the attributes demand, field by field, lengths in UTF-16 code
      units: a score in 0..100, feedback of 10 to 1000 units that is not
      blank, the three optional texts at most 500 units, a non-blank period of
      at most 20 and a non-blank evaluator of at most 100 units. */
  predicate FieldsValid(f: EvaluationForm) {
    && 0 <= f.evaluationScore <= 100
    && Filled(f.feedback, 1000) && Utf16Length(f.feedback.value) >= 10
    && AtMost(f.goals, 500) && AtMost(f.achievements, 500) && AtMost(f.areasForImprovement, 500)
    && Filled(f.evaluationPeriod, 20)
    && Filled(f.evaluatedBy, 100)
  }

  lemma CreateValidity(f: EvaluationForm)
    ensures ValidCreate(f) <==> FieldsValid(f)
  {
    var v, a := FormValues(f), CreateAnnotations;
    if ValidCreate(f) {
      assert Satisfies(v[1], a[1][1]);
      assert Satisfies(v[2], a[2][0]) && Satisfies(v[2], a[2][1]) && Satisfies(v[2], a[2][2]);
      assert Satisfies(v[3], a[3][0]) && Satisfies(v[4], a[4][0]) && Satisfies(v[5], a[5][0]);
      assert Satisfies(v[7], a[7][0]) && Satisfies(v[7], a[7][1]);
      assert Satisfies(v[8], a[8][0]) && Satisfies(v[8], a[8][1]);
    }
  }

  /** A character outside the Basic Multilingual Plane counts twice: feedback
      of six emoji is 12 code units long and meets `[MinLength(10)]`. */
  lemma SupplementaryCharactersCountTwice()
    ensures var emoji := "\U{1F600}\U{1F600}\U{1F600}\U{1F600}\U{1F600}\U{1F600}";
      && |emoji| == 6 && Utf16Length(emoji) == 12
      && ValidCreate(EvaluationForm(1, 50, Some(emoji), None, None, None, 0, Some("Q1 2025"), Some("Ana")))
  {
    var emoji := "\U{1F600}\U{1F600}\U{1F600}\U{1F600}\U{1F600}\U{1F600}";
    assert Utf16Length(emoji[..1]) == 2;
    assert Utf16Length(emoji[..2]) == 4 by { assert emoji[..2][..1] == emoji[..1]; }
    assert Utf16Length(emoji[..3]) == 6 by { assert emoji[..3][..2] == emoji[..2]; }
    assert Utf16Length(emoji[..4]) == 8 by { assert emoji[..4][..3] == emoji[..3]; }
    assert Utf16Length(emoji[..5]) == 10 by { assert emoji[..5][..4] == emoji[..4]; }
    assert Utf16Length(emoji) == 12 by { assert emoji[..5] == emoji[..|emoji| - 1]; }
    CreateValidity(EvaluationForm(1, 50, Some(emoji), None, None, None, 0, Some("Q1 2025"), Some("Ana")));
  }

  /** The update DTO accepts exactly what the create DTO accepts. */
  lemma UpdateValidityIsCreateValidity(f: EvaluationForm)
    ensures ValidUpdate(f) <==> ValidCreate(f)
  {
    assert UpdateAnnotations == CreateAnnotations;
  }

  /** `EmployeeEvaluationDTO`, the shape every read returns. */
  datatype EvaluationView = EvaluationView(
    id: int,
    employeeId: int,
    employeeName: Option<string>,
    evaluationScore: int,
    feedback: Option<string>,
    goals: Option<string>,
    achievements: Option<string>,
    areasForImprovement: Option<string>,
    evaluationDate: int,
    evaluationPeriod: Option<string>,
    evaluatedBy: Option<string>,
    createdAt: int,
    updatedAt: Option<int>)

  function ViewValues(v: EvaluationView): seq<Value> {
    [ Number(v.id), Number(v.employeeId), Str(v.employeeName), Number(v.evaluationScore),
      Str(v.feedback), Str(v.goals), Str(v.achievements), Str(v.areasForImprovement),
      Number(v.evaluationDate), Str(v.evaluationPeriod), Str(v.evaluatedBy),
      Number(v.createdAt), NullableNumber(v.updatedAt) ]
  }

  /** The attributes of `EmployeeEvaluationDTO`, property by property. */
  const ViewAnnotations: seq<seq<Annotation>> := [
    [],                                           // Id
    [Required],                                   // EmployeeId
    [],                                           // EmployeeName
    [Required, Range(0, 100)],                    // EvaluationScore
    [Required, MinLength(10), MaxLength(1000)],   // Feedback
    [MaxLength(500)],                             // Goals
    [MaxLength(500)],                             // Achievements
    [MaxLength(500)],                             // AreasForImprovement
    [Required],                                   // EvaluationDate
    [Required, MaxLength(20)],                    // EvaluationPeriod
    [Required, MaxLength(100)],                   // EvaluatedBy
    [],                                           // CreatedAt
    []                                            // UpdatedAt
  ]

  predicate ValidView(v: EvaluationView) {
    Conforms(ViewValues(v), ViewAnnotations)
  }

  /** The form part of a view. */
  function FormOfView(v: EvaluationView): EvaluationForm {
    EvaluationForm(v.employeeId, v.evaluationScore, v.feedback, v.goals, v.achievements,
                   v.areasForImprovement, v.evaluationDate, v.evaluationPeriod, v.evaluatedBy)
  }

  /** The view DTO puts on its form properties the attributes the create DTO
      puts on them, and nothing on the rest. */
  lemma ViewValidity(v: EvaluationView)
    ensures ValidView(v) <==> ValidCreate(FormOfView(v))
  {
    var f := FormOfView(v);
    var vv, va := ViewValues(v), ViewAnnotations;
    var fv, fa := FormValues(f), CreateAnnotations;
    assert forall k :: 0 <= k < 9 ==> vv[[1, 3, 4, 5, 6, 7, 8, 9, 10][k]] == fv[k];
    assert forall k :: 0 <= k < 9 ==> va[[1, 3, 4, 5, 6, 7, 8, 9, 10][k]] == fa[k];
    if ValidCreate(f) {
      forall i, a | 0 <= i < |vv| && a in va[i]
        ensures Satisfies(vv[i], a)
      {
        var k := if i == 1 then 0 else i - 2;
        assert i in {1, 3, 4, 5, 6, 7, 8, 9, 10};
        assert vv[i] == fv[k] && va[i] == fa[k];
      }
    }
    if ValidView(v) {
      forall k, a | 0 <= k < |fv| && a in fa[k]
        ensures Satisfies(fv[k], a)
      {
        var i := [1, 3, 4, 5, 6, 7, 8, 9, 10][k];
        assert vv[i] == fv[k] && va[i] == fa[k];
      }
    }
  }
}
