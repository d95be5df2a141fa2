/** The REST endpoint for projects (core_garcia_rodriguez/viewsets.py): the owner
    permission, the role-dependent queryset, and the `calificar` action that grades and
    moves a project. */
module ApiViewsets {
  import opened Results
  import opened Seqs
  import opened Users
  import opened Http
  import opened ProjectModel

  /** `IsOwnerOrReadOnly.has_object_permission`: read-only methods for everybody,
      any other method only for the project's owner. */
  function HasObjectPermission(httpMethod: string, user: User, obj: ProjectRow): (b: bool)
    ensures httpMethod in SAFE_METHODS ==> b
    ensures httpMethod !in SAFE_METHODS ==> (b <==> obj.estudiante == user.id)
  {
    if httpMethod in SAFE_METHODS then true else obj.estudiante == user.id
  }

  /** `ProyectoViewSet.get_queryset`: every project for a teacher, only their own for
      anybody else; each stored row once per occurrence. */
  function ApiQueryset(rows: seq<ProjectRow>, user: User): (r: seq<ProjectRow>)
    ensures IsTeacher(user) ==> forall x :: x in r <==> x in rows
    ensures !IsTeacher(user) ==> forall x :: x in r <==> x in rows && x.estudiante == user.id
    ensures forall x :: multiset(r)[x] == if IsTeacher(user) || x.estudiante == user.id then multiset(rows)[x] else 0
    ensures SortedBy(r, NewerFirst)
  {
    Select(rows, (x: ProjectRow) => IsTeacher(user) || x.estudiante == user.id)
  }

  /** `get_object()` of a detail route: the project with key `pk` when the user's
      queryset holds it, None (a 404) otherwise. */
  function ApiObject(rows: seq<ProjectRow>, user: User, pk: nat): (r: Option<ProjectRow>)
    ensures r.Some? ==> r.value in ApiQueryset(rows, user) && r.value.id == pk
    ensures UniqueIds(rows) && r.None? ==> forall x :: x in ApiQueryset(rows, user) ==> x.id != pk
  {
    match Lookup(rows, pk)
    case Some(row) => if IsTeacher(user) || row.estudiante == user.id then Some(row) else None
    case None => None
  }

  /** Over the API, whoever is not a teacher may change every project the API shows
      them, while a teacher may change only the projects they own. */
  lemma ApiChangeRights(rows: seq<ProjectRow>, user: User, httpMethod: string)
    ensures !IsTeacher(user) ==> forall x :: x in ApiQueryset(rows, user) ==> HasObjectPermission(httpMethod, user, x)
    ensures IsTeacher(user) && httpMethod !in SAFE_METHODS ==>
              forall x :: x in ApiQueryset(rows, user) ==> (HasObjectPermission(httpMethod, user, x) <==> x.estudiante == user.id)
  {
  }

  /** The `calificacion` of the request body, after `float(...)`: absent (None), a
      number (in hundredths), a value `float` refuses (ValueError) or a value of a
      type `float` cannot take (TypeError, which the action does not catch). */
  datatype GradeInput = Absent | Parsed(h: int) | NotANumber | WrongType

  /** The state list `calificar` accepts, as written. */
  const CALIFICAR_STATES_AS_WRITTEN: seq<string> :=
    ["borrador", "enviado", "en_revision", "aprobado", "rechazado"]

  /** The state list the action evidently intends: the model's own states. */
  const CALIFICAR_STATES: seq<string> := ChoiceValues(ESTADO_CHOICES)

  /** A response of the action: its status and, on success, the row it saved. */
  datatype ApiResponse = ApiResponse(status: int, saved: Option<ProjectRow>)

  /** The row `calificar` saves: the grade when one was given, the state when a
      non-empty one was given, and the review date `save` refreshes. */
  function GradedRow(rows: seq<ProjectRow>, row: ProjectRow, grade: GradeInput, estado: Option<string>,
                     now: nat): (r: ProjectRow)
    ensures r.calificacion == (if grade.Parsed? then Some(grade.h) else row.calificacion)
    ensures r.estado == (if estado.Some? && estado.value != "" then estado.value else row.estado)
    ensures r.fechaRevision == RevisionAfterSave(rows, Some(row.id), r.estado, row.fechaRevision, now)
    ensures r.id == row.id && r.titulo == row.titulo && r.descripcion == row.descripcion
    ensures r.estudiante == row.estudiante && r.documento == row.documento && r.fechaEnvio == row.fechaEnvio
  {
    var withGrade := if grade.Parsed? then row.(calificacion := Some(grade.h)) else row;
    var withState := if estado.Some? && estado.value != "" then withGrade.(estado := estado.value) else withGrade;
    withState.(fechaRevision := RevisionAfterSave(rows, Some(row.id), withState.estado, row.fechaRevision, now))
  }

  /** What `calificar` answers. The checks run in order and each rejection returns
      before anything is saved: the object (404), the role (403), the grade (400 out
      of range or unparsable, 500 for a value of the wrong type), the state (400 when
      non-empty and not accepted). Otherwise the one save happens and the answer is 200. */
  function CalificarOutcome(rows: seq<ProjectRow>, user: User, pk: nat, grade: GradeInput,
                            estado: Option<string>, accepted: seq<string>, now: nat): (r: ApiResponse)
    ensures r.saved.Some? <==> r.status == OK
    ensures ApiObject(rows, user, pk).None? ==> r.status == NOT_FOUND
    ensures ApiObject(rows, user, pk).Some? && !IsTeacher(user) ==> r.status == FORBIDDEN
    ensures ApiObject(rows, user, pk).Some? && IsTeacher(user) ==>
              && (grade.WrongType? ==> r.status == SERVER_ERROR)
              && (grade.NotANumber? || (grade.Parsed? && !GradeInRange(grade.h)) ==> r.status == BAD_REQUEST)
    ensures r.status == OK <==>
              && ApiObject(rows, user, pk).Some? && IsTeacher(user)
              && (grade.Absent? || (grade.Parsed? && GradeInRange(grade.h)))
              && (estado.None? || estado.value == "" || estado.value in accepted)
    ensures (&& ApiObject(rows, user, pk).Some? && IsTeacher(user)
             && (grade.Absent? || (grade.Parsed? && GradeInRange(grade.h)))
             && estado.Some? && estado.value != "" && estado.value !in accepted) ==> r.status == BAD_REQUEST
    ensures r.status == OK ==> r.saved.value == GradedRow(rows, ApiObject(rows, user, pk).value, grade, estado, now)
  {
    match ApiObject(rows, user, pk)
    case None => ApiResponse(NOT_FOUND, None)
    case Some(row) =>
      if !IsTeacher(user) then ApiResponse(FORBIDDEN, None)
      else if grade.WrongType? then ApiResponse(SERVER_ERROR, None)
      else if grade.NotANumber? then ApiResponse(BAD_REQUEST, None)
      else if grade.Parsed? && !(0 <= grade.h <= 500) then ApiResponse(BAD_REQUEST, None)
      else if estado.Some? && estado.value != "" && estado.value !in accepted then ApiResponse(BAD_REQUEST, None)
      else ApiResponse(OK, Some(GradedRow(rows, row, grade, estado, now)))
  }

  /** `calificar`, step by step on a loaded instance: each rejection returns before
      the single `save`; `accepted` is the state list the action checks against. */
  method Calificar(table: ProjectTable, user: User, pk: nat, grade: GradeInput,
                   estado: Option<string>, accepted: seq<string>, now: nat) returns (status: int)
    requires table.Valid()
    modifies table
    ensures table.Valid()
    ensures status == CalificarOutcome(old(table.rows), user, pk, grade, estado, accepted, now).status
    ensures status != OK ==> table.rows == old(table.rows) && table.nextId == old(table.nextId)
    ensures status == OK ==>
              table.rows == Upsert(old(table.rows), CalificarOutcome(old(table.rows), user, pk, grade, estado, accepted, now).saved.value)
  {
    var found := ApiObject(table.rows, user, pk);
    if found.None? {
      return NOT_FOUND;
    }
    if !IsTeacher(user) {
      return FORBIDDEN;
    }
    match grade {
      case WrongType =>
        return SERVER_ERROR;
      case NotANumber =>
        return BAD_REQUEST;
      case Parsed(h) =>
        if !(0 <= h <= 500) {
          return BAD_REQUEST;
        }
      case Absent =>
    }
    if estado.Some? && estado.value != "" && estado.value !in accepted {
      return BAD_REQUEST;
    }
    SaveGraded(table, found.value, grade, estado, now);
    status := OK;
  }

  /** The accepted request: the loaded instance takes the grade and the state, then
      `save` writes it. */
  method SaveGraded(table: ProjectTable, row: ProjectRow, grade: GradeInput, estado: Option<string>, now: nat)
    requires table.Valid() && row in table.rows
    modifies table
    ensures table.Valid()
    ensures table.rows == Upsert(old(table.rows), GradedRow(old(table.rows), row, grade, estado, now))
  {
    LookupMember(table.rows, row);
    var proyecto := new Proyecto.FromRow(row);
    if grade.Parsed? {
      proyecto.calificacion := Some(grade.h);
    }
    if estado.Some? && estado.value != "" {
      proyecto.estado := estado.value;
    }
    proyecto.Save(table, now);
  }

  /** As written, the accepted list and the model's states disagree: 'en_revision' is
      accepted and stored although it is no state of the model, and the model's own
      'revision' is refused. */
  lemma CalificarStateListMismatch(rows: seq<ProjectRow>, user: User, pk: nat, now: nat)
    requires ApiObject(rows, user, pk).Some? && IsTeacher(user)
    ensures var r := CalificarOutcome(rows, user, pk, Absent, Some("en_revision"), CALIFICAR_STATES_AS_WRITTEN, now);
            r.status == OK && r.saved.value.estado == "en_revision" && !r.saved.value.WellFormed()
    ensures CalificarOutcome(rows, user, pk, Absent, Some(REVISION), CALIFICAR_STATES_AS_WRITTEN, now).status == BAD_REQUEST
  {
    AsWrittenStates();
  }

  /** The as-written list holds 'en_revision', which is no model state, and not the
      model's 'revision'. */
  lemma AsWrittenStates()
    ensures "en_revision" in CALIFICAR_STATES_AS_WRITTEN && !IsEstadoChoice("en_revision")
    ensures REVISION !in CALIFICAR_STATES_AS_WRITTEN
  {
    assert CALIFICAR_STATES_AS_WRITTEN[2] == "en_revision";
    assert "en_revision"[2] != ENVIADO[2] && "en_revision"[0] != REVISION[0] && "en_revision"[0] != APROBADO[0];
    assert forall i :: 0 <= i < |CALIFICAR_STATES_AS_WRITTEN| ==> CALIFICAR_STATES_AS_WRITTEN[i] != REVISION by {
      assert CALIFICAR_STATES_AS_WRITTEN[0][0] != REVISION[0];
      assert CALIFICAR_STATES_AS_WRITTEN[1][0] != REVISION[0];
      assert CALIFICAR_STATES_AS_WRITTEN[2][0] != REVISION[0];
      assert CALIFICAR_STATES_AS_WRITTEN[3][0] != REVISION[0];
      assert |CALIFICAR_STATES_AS_WRITTEN[4]| != |REVISION|;
    }
  }

  /** With the model's own states as the accepted list, a successful `calificar` keeps
      a well-formed row well formed, and every model state, 'revision' included, is
      accepted. */
  lemma CalificarCorrectedKeepsStates(rows: seq<ProjectRow>, user: User, pk: nat, grade: GradeInput,
                                      estado: Option<string>, now: nat)
    requires forall x :: x in rows ==> x.WellFormed()
    ensures var r := CalificarOutcome(rows, user, pk, grade, estado, CALIFICAR_STATES, now);
            r.status == OK ==> r.saved.value.WellFormed()
    ensures ApiObject(rows, user, pk).Some? && IsTeacher(user) && estado.Some? && IsEstadoChoice(estado.value)
            && (grade.Absent? || (grade.Parsed? && GradeInRange(grade.h))) ==>
              CalificarOutcome(rows, user, pk, grade, estado, CALIFICAR_STATES, now).status == OK
  {
    EstadoChoicesAreTheStates();
  }
}
