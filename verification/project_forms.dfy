/** The project forms (projects_garcia_rodriguez/forms.py): the student form, the
    teacher's review form with its approval rule, and the choices of the filter form.
    Field cleaning is the framework's; it is modelled only as far as it decides which
    values reach `cleaned_data` and whether the form is valid. */
module ProjectForms {
  import opened Results
  import opened Text
  import opened ProjectModel
  import opened ProjectService

  /** The fields of a project row, by their column names. */
  datatype Field = Id | Titulo | Descripcion | Estudiante | Documento | Estado | FechaEnvio
                 | FechaRevision | Calificacion

  /** `ProyectoForm.Meta.fields` */
  const PROYECTO_FORM_FIELDS: set<Field> := {Titulo, Descripcion, Documento}

  /** `ProyectoReviewForm.Meta.fields` */
  const REVIEW_FORM_FIELDS: set<Field> := {Estado, Calificacion}

  /** `ProyectoFilterForm.ESTADO_CHOICES`: an empty "all states" option, then the model's. */
  const FILTER_ESTADO_CHOICES: seq<(string, string)> := [("", "Todos los estados")] + ESTADO_CHOICES

  /** The filter's values are the empty option followed by exactly the model's states. */
  lemma FilterChoicesAreAllThenStates()
    ensures ChoiceValues(FILTER_ESTADO_CHOICES) == [""] + ChoiceValues(ESTADO_CHOICES)
    ensures ChoiceValues(FILTER_ESTADO_CHOICES) == ["", ENVIADO, REVISION, APROBADO]
    ensures forall e :: e in ChoiceValues(FILTER_ESTADO_CHOICES) <==> e == "" || IsEstadoChoice(e)
  {
    EstadoChoicesAreTheStates();
    assert ChoiceValues(FILTER_ESTADO_CHOICES)[1..] == ChoiceValues(ESTADO_CHOICES);
  }

  /** The names of the fields in which two rows differ. */
  function ChangedFields(a: ProjectRow, b: ProjectRow): (r: set<Field>)
    ensures r == {} <==> a == b
  {
    (if a.id != b.id then {Id} else {})
    + (if a.titulo != b.titulo then {Titulo} else {})
    + (if a.descripcion != b.descripcion then {Descripcion} else {})
    + (if a.estudiante != b.estudiante then {Estudiante} else {})
    + (if a.documento != b.documento then {Documento} else {})
    + (if a.estado != b.estado then {Estado} else {})
    + (if a.fechaEnvio != b.fechaEnvio then {FechaEnvio} else {})
    + (if a.fechaRevision != b.fechaRevision then {FechaRevision} else {})
    + (if a.calificacion != b.calificacion then {Calificacion} else {})
  }

  const TITULO_MAX_LENGTH: nat := 200

  /** What the student submits; `documento` is None when no file is uploaded. */
  datatype StudentInput = StudentInput(titulo: string, descripcion: string, documento: Option<string>)

  /** The cleaned values of a valid student form. */
  datatype StudentData = StudentData(titulo: string, descripcion: string, documento: string)

  /** Field cleaning of `ProyectoForm`: text is stripped; the title is required and at
      most 200 characters; the description is required; the document is required unless
      the instance already has one, which is then kept. The result lists the failing
      fields. */
  function CleanStudentForm(input: StudentInput, existing: Option<string>): (r: Result<StudentData, seq<Field>>)
    ensures r.Ok? <==> Strip(input.titulo) != "" && |Strip(input.titulo)| <= TITULO_MAX_LENGTH
                       && Strip(input.descripcion) != "" && (input.documento.Some? || existing.Some?)
    ensures r.Ok? ==> r.value.titulo == Strip(input.titulo) && r.value.descripcion == Strip(input.descripcion)
    ensures r.Ok? && input.documento.Some? ==> r.value.documento == input.documento.value
    ensures r.Ok? && input.documento.None? ==> r.value.documento == existing.value
    ensures r.Err? ==> r.error != [] && forall f :: f in r.error ==> f in PROYECTO_FORM_FIELDS
  {
    var titulo := Strip(input.titulo);
    var descripcion := Strip(input.descripcion);
    var tituloOk := titulo != "" && |titulo| <= TITULO_MAX_LENGTH;
    var descripcionOk := descripcion != "";
    var documentoOk := input.documento.Some? || existing.Some?;
    if tituloOk && descripcionOk && documentoOk then
      Ok(StudentData(titulo, descripcion, if input.documento.Some? then input.documento.value else existing.value))
    else
      Err(StudentErrors(tituloOk, descripcionOk, documentoOk))
  }

  /** The student form's failing fields, in field order. */
  function StudentErrors(tituloOk: bool, descripcionOk: bool, documentoOk: bool): (e: seq<Field>)
    ensures e == [] <==> tituloOk && descripcionOk && documentoOk
    ensures forall f :: f in e ==> f in PROYECTO_FORM_FIELDS
  {
    (if tituloOk then [] else [Titulo])
    + (if descripcionOk then [] else [Descripcion])
    + (if documentoOk then [] else [Documento])
  }

  /** `form.save()` of the student form on a row: only the form's fields are written. */
  function WithStudentData(row: ProjectRow, d: StudentData): (r: ProjectRow)
    ensures ChangedFields(row, r) <= PROYECTO_FORM_FIELDS
    ensures r.titulo == d.titulo && r.descripcion == d.descripcion && r.documento == d.documento
  {
    row.(titulo := d.titulo, descripcion := d.descripcion, documento := d.documento)
  }

  /** What the teacher submits for the grade: nothing, a number of hundredths, or text
      that is not a number with at most two decimals. */
  datatype GradeEntry = Blank | Hundredths(h: int) | Malformed

  datatype ReviewInput = ReviewInput(estado: string, calificacion: GradeEntry)

  /** `cleaned_data` of the review form: a field whose own validation failed is missing,
      which `cleaned_data.get` reads as None. */
  datatype CleanedReview = CleanedReview(estado: Option<string>, calificacion: Option<int>)

  const APPROVAL_NEEDS_GRADE: string := "Debe asignar una calificación para aprobar el proyecto."

  /** `ProyectoReviewForm.clean`: approving without a grade is refused; everything else
      passes and comes back unchanged. */
  function Clean(data: CleanedReview): (r: Result<CleanedReview, string>)
    ensures r.Err? <==> data.estado == Some(APROBADO) && data.calificacion.None?
    ensures r.Err? ==> r.error == APPROVAL_NEEDS_GRADE
    ensures r.Ok? ==> r.value == data
  {
    if data.estado == Some(APROBADO) && data.calificacion.None? then Err(APPROVAL_NEEDS_GRADE)
    else Ok(data)
  }

  /** One reason a review form is invalid. */
  datatype ReviewError = FieldError(field: Field) | FormError(message: string)

  /** The state field: required, and one of the model's choices. */
  function CleanEstado(estado: string): Option<string>
  {
    if IsEstadoChoice(estado) then Some(estado) else None
  }

  /** The grade's form field: optional; when given, a number that fits the column
      (`max_digits=4`, `decimal_places=2`, so at most two whole digits). The outer
      Option is the field's success, the inner one its value. The column's range
      validators are not part of the form field. */
  function CleanCalificacion(entry: GradeEntry): Option<Option<int>>
  {
    match entry
    case Blank => Some(None)
    case Hundredths(h) => if FitsColumn(h) then Some(Some(h)) else None
    case Malformed => None
  }

  /** A value of at most two whole and two fractional digits. */
  predicate FitsColumn(h: int)
  {
    -10000 < h < 10000
  }

  /** The model validation that runs after `clean` (`_post_clean`): the column's
      `MinValueValidator(0.0)` and `MaxValueValidator(5.0)` on a grade that passed its
      form field. */
  function PostCleanErrors(calificacion: Option<Option<int>>): seq<ReviewError>
  {
    if calificacion.Some? && calificacion.value.Some? && !GradeInRange(calificacion.value.value)
    then [FieldError(Calificacion)] else []
  }

  /** `is_valid()` of the review form: the form fields, then `clean` on what survived,
      then the model's own validators; the errors of all three are collected. */
  function ValidateReviewForm(input: ReviewInput): (r: Result<CleanedReview, seq<ReviewError>>)
    ensures r.Ok? <==> IsEstadoChoice(input.estado)
                       && (input.calificacion.Blank? || (input.calificacion.Hundredths? && GradeInRange(input.calificacion.h)))
                       && !(input.estado == APROBADO && input.calificacion.Blank?)
    ensures r.Ok? ==> r.value.estado == Some(input.estado)
                      && r.value.calificacion == (if input.calificacion.Blank? then None else Some(input.calificacion.h))
    ensures input.estado == APROBADO && !(input.calificacion.Hundredths? && FitsColumn(input.calificacion.h)) ==>
              r.Err? && FormError(APPROVAL_NEEDS_GRADE) in r.error
    ensures r.Err? && input.calificacion.Hundredths? && FitsColumn(input.calificacion.h) ==>
              FormError(APPROVAL_NEEDS_GRADE) !in r.error
    ensures input.calificacion.Hundredths? && !GradeInRange(input.calificacion.h) ==>
              r.Err? && FieldError(Calificacion) in r.error
  {
    var estado := CleanEstado(input.estado);
    var calificacion := CleanCalificacion(input.calificacion);
    var cleaned := CleanedReview(estado, if calificacion.Some? then calificacion.value else None);
    var fieldErrors :=
      (if estado.None? then [FieldError(Estado)] else [])
      + (if calificacion.None? then [FieldError(Calificacion)] else []);
    var formErrors := match Clean(cleaned) case Ok(_) => [] case Err(m) => [FormError(m)];
    var errors := fieldErrors + formErrors + PostCleanErrors(calificacion);
    if errors == [] then Ok(cleaned)
    else Err(errors)
  }

  /** Approving with a grade outside [0.0, 5.0] that fits the column reports only the
      grade's error: `clean` sees a grade and does not object. */
  lemma ApprovalWithOutOfRangeGrade()
    ensures ValidateReviewForm(ReviewInput(APROBADO, Hundredths(700))) == Err([FieldError(Calificacion)])
    ensures ValidateReviewForm(ReviewInput(APROBADO, Hundredths(-100))) == Err([FieldError(Calificacion)])
  {
    assert IsEstadoChoice(APROBADO);
    assert !GradeInRange(700) && !GradeInRange(-100);
    assert PostCleanErrors(Some(Some(700))) == [FieldError(Calificacion)];
    assert Clean(CleanedReview(Some(APROBADO), Some(700))).Ok?;
    assert CleanEstado(APROBADO) == Some(APROBADO);
    assert CleanCalificacion(Hundredths(700)) == Some(Some(700));
    var r := ValidateReviewForm(ReviewInput(APROBADO, Hundredths(700)));
    assert r.Err?;
    assert r.error == [FieldError(Calificacion)];
  }

  /** `form.save()` of the review form on a row: only the form's fields are written. */
  function WithReview(row: ProjectRow, c: CleanedReview): (r: ProjectRow)
    requires c.estado.Some?
    ensures ChangedFields(row, r) <= REVIEW_FORM_FIELDS
    ensures r.estado == c.estado.value && r.calificacion == c.calificacion
  {
    row.(estado := c.estado.value, calificacion := c.calificacion)
  }

  /** A valid review keeps the row well formed, and an approved row then has a grade. */
  lemma ReviewKeepsWellFormed(row: ProjectRow, input: ReviewInput)
    requires ValidateReviewForm(input).Ok?
    ensures var r := WithReview(row, ValidateReviewForm(input).value);
            r.WellFormed() && (r.EstaAprobado() ==> r.calificacion.Some?)
  {
  }

  /** The approval rule lives only in the review form: the form refuses to approve an
      ungraded project, while `change_project_state` approves it and leaves it
      ungraded. */
  lemma ApprovalRuleOnlyInForm(row: ProjectRow, now: nat)
    requires row.calificacion.None?
    ensures ValidateReviewForm(ReviewInput(APROBADO, Blank)).Err?
    ensures var r := ChangedRow(row, APROBADO, None, now);
            r.Ok? && r.value.EstaAprobado() && r.value.calificacion.None?
  {
  }
}
