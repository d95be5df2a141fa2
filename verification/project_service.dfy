/** The project service (projects_garcia_rodriguez/services/project_service.py): the
    role-based queries, the edit and delete permissions, the state change, the global
    statistics and the CSV export. Every query returns rows in the model's default
    order, newer submissions first. */
module ProjectService {
  import opened Results
  import opened Seqs
  import opened Text
  import opened Users
  import opened ProjectModel
  import opened CommentModel
  import opened Aggregates
  import opened Csv

  /** `get_projects_for_student`: the student's own projects, each stored row once. */
  function ProjectsForStudent(rows: seq<ProjectRow>, student: User): (r: seq<ProjectRow>)
    ensures forall x :: x in r <==> x in rows && x.estudiante == student.id
    ensures forall x :: multiset(r)[x] == if x.estudiante == student.id then multiset(rows)[x] else 0
    ensures SortedBy(r, NewerFirst)
  {
    Select(rows, (x: ProjectRow) => x.estudiante == student.id)
  }

  /** The filter dictionary of `get_projects_for_teacher`. An empty `estado` and an
      absent `estudianteId` are the falsy values that switch a filter off. */
  datatype TeacherFilters = TeacherFilters(estado: string, estudianteId: Option<UserId>)

  /** A row passes each filter that is switched on. */
  predicate PassesFilters(x: ProjectRow, f: TeacherFilters)
  {
    && (f.estado == "" || x.estado == f.estado)
    && (f.estudianteId.None? || x.estudiante == f.estudianteId.value)
  }

  /** `get_projects_for_teacher`: all projects, narrowed by each filter that is given;
      each stored row that passes appears once per occurrence. */
  function ProjectsForTeacher(rows: seq<ProjectRow>, filters: Option<TeacherFilters>): (r: seq<ProjectRow>)
    ensures filters.None? ==> multiset(r) == multiset(rows)
    ensures filters.Some? ==> forall x :: x in r <==> x in rows && PassesFilters(x, filters.value)
    ensures filters.Some? ==> forall x :: multiset(r)[x] == if PassesFilters(x, filters.value) then multiset(rows)[x] else 0
    ensures SortedBy(r, NewerFirst)
  {
    var all := Select(rows, (x: ProjectRow) => true);
    assert multiset(all) == multiset(rows) by {
      assert multiset(all) == multiset(Filter(rows, (x: ProjectRow) => true));
      FilterAll(rows);
    }
    if filters.None? then all
    else
      var f := filters.value;
      var byEstado := (
        if f.estado == "" then all
        else
          FilterSorted(all, (x: ProjectRow) => x.estado == f.estado, NewerFirst);
          FilterMultiplicity(all, (x: ProjectRow) => x.estado == f.estado);
          Filter(all, (x: ProjectRow) => x.estado == f.estado));
      assert forall x :: multiset(byEstado)[x] == if f.estado == "" || x.estado == f.estado then multiset(rows)[x] else 0;
      var byStudent := (
        match f.estudianteId
        case None => byEstado
        case Some(sid) =>
          FilterSorted(byEstado, (x: ProjectRow) => x.estudiante == sid, NewerFirst);
          FilterMultiplicity(byEstado, (x: ProjectRow) => x.estudiante == sid);
          Filter(byEstado, (x: ProjectRow) => x.estudiante == sid));
      assert forall x :: multiset(byStudent)[x] == if PassesFilters(x, f) then multiset(rows)[x] else 0;
      assert forall x :: x in byStudent <==> x in multiset(byStudent);
      assert forall x :: x in rows <==> x in multiset(rows);
      byStudent
  }

  lemma {:induction false} FilterAll(rows: seq<ProjectRow>)
    ensures Filter(rows, (x: ProjectRow) => true) == rows
    decreases |rows|
  {
    if rows != [] {
      FilterAll(rows[1..]);
      assert rows == [rows[0]] + rows[1..];
    }
  }

  /** `can_user_edit_project`: every teacher; otherwise only the owner, and only while
      the project is not approved. */
  function CanUserEditProject(user: User, p: ProjectRow): (b: bool)
    ensures IsTeacher(user) ==> b
    ensures !IsTeacher(user) ==> (b <==> p.estudiante == user.id && !p.EstaAprobado())
  {
    if IsTeacher(user) then true
    else if p.estudiante != user.id then false
    else p.PuedeEditarse()
  }

  /** `can_user_delete_project`: only the owner, only while not approved; being a
      teacher grants nothing here. */
  function CanUserDeleteProject(user: User, p: ProjectRow): (b: bool)
    ensures b <==> p.estudiante == user.id && !p.EstaAprobado()
  {
    p.estudiante == user.id && p.PuedeEditarse()
  }

  /** How the two permissions relate: whoever may delete may edit; a teacher who does
      not own a project may edit but never delete it; an approved project can be
      edited only by a teacher and deleted by nobody. */
  lemma PermissionRelations(user: User, p: ProjectRow)
    ensures CanUserDeleteProject(user, p) ==> CanUserEditProject(user, p)
    ensures IsTeacher(user) && p.estudiante != user.id ==>
              CanUserEditProject(user, p) && !CanUserDeleteProject(user, p)
    ensures p.EstaAprobado() ==> !CanUserDeleteProject(user, p)
                                 && (CanUserEditProject(user, p) <==> IsTeacher(user))
  {
  }

  const GRADE_RANGE_ERROR: string := "La calificación debe estar entre 0.0 y 5.0"

  /** The row `change_project_state` writes for a stored row: the new state, the review
      date set to now, and the grade replaced when one is given; a grade outside
      [0.0, 5.0] is refused. */
  function ChangedRow(row: ProjectRow, newState: string, calificacion: Option<int>, now: nat)
    : (r: Result<ProjectRow, string>)
    ensures r.Err? <==> calificacion.Some? && !GradeInRange(calificacion.value)
    ensures r.Err? ==> r.error == GRADE_RANGE_ERROR
    ensures r.Ok? ==> r.value.id == row.id && r.value.estado == newState
                      && r.value.fechaRevision == Some(now)
                      && r.value.calificacion == (if calificacion.Some? then calificacion else row.calificacion)
    ensures r.Ok? ==> r.value.titulo == row.titulo && r.value.descripcion == row.descripcion
                      && r.value.estudiante == row.estudiante && r.value.documento == row.documento
                      && r.value.fechaEnvio == row.fechaEnvio
  {
    var changed := row.(estado := newState, fechaRevision := Some(now));
    match calificacion
    case None => Ok(changed)
    case Some(g) =>
      if GRADE_MIN <= g <= GRADE_MAX then Ok(changed.(calificacion := Some(g)))
      else Err(GRADE_RANGE_ERROR)
  }

  /** A state change to one of the model's states keeps a well-formed row well formed;
      nothing else about the row changes. It does not require a grade to approve. */
  lemma ChangedRowKeepsWellFormed(row: ProjectRow, newState: string, calificacion: Option<int>, now: nat)
    requires row.WellFormed() && IsEstadoChoice(newState)
    ensures ChangedRow(row, newState, calificacion, now).Ok? ==>
              var r := ChangedRow(row, newState, calificacion, now).value;
              r.WellFormed()
              && r.titulo == row.titulo && r.descripcion == row.descripcion
              && r.estudiante == row.estudiante && r.documento == row.documento
              && r.fechaEnvio == row.fechaEnvio
    ensures row.calificacion.None? ==> ChangedRow(row, APROBADO, None, now) == Ok(row.(estado := APROBADO, fechaRevision := Some(now)))
  {
  }

  /** `change_project_state`: set the state and the review date on the instance, then
      the grade when one is given, and save. A grade outside [0.0, 5.0] raises after
      the state and date were set on the instance but before `save`, so the table is
      unchanged. */
  method ChangeProjectState(p: Proyecto, table: ProjectTable, newState: string,
                            calificacion: Option<int>, now: nat)
    returns (r: Outcome<string>)
    requires table.Valid()
    modifies p, table
    ensures table.Valid()
    ensures r.Fail? <==> calificacion.Some? && !GradeInRange(calificacion.value)
    ensures p.estado == newState && p.fechaRevision == Some(now)
    ensures p.titulo == old(p.titulo) && p.descripcion == old(p.descripcion)
    ensures p.estudiante == old(p.estudiante) && p.documento == old(p.documento)
    ensures r.Fail? ==> r.error == GRADE_RANGE_ERROR
                        && table.rows == old(table.rows) && table.nextId == old(table.nextId)
                        && p.calificacion == old(p.calificacion) && p.pk == old(p.pk)
    ensures r.Pass? ==> p.calificacion == (if calificacion.Some? then calificacion else old(p.calificacion))
                        && p.pk.Some? && table.rows == Upsert(old(table.rows), p.Snapshot(p.pk.value))
    ensures r.Pass? && old(p.pk).Some? ==>
              Ok(p.Snapshot(p.pk.value))
              == ChangedRow(old(p.Snapshot(p.pk.value)), newState, calificacion, now)
  {
    p.estado := newState;
    p.fechaRevision := Some(now);
    if calificacion.Some? {
      if GRADE_MIN <= calificacion.value <= GRADE_MAX {
        p.calificacion := calificacion;
      } else {
        return Fail(GRADE_RANGE_ERROR);
      }
    }
    p.Save(table, now);
    r := Pass;
  }

  /** The aggregate `get_project_statistics` returns. */
  datatype Statistics = Statistics(total: nat, enviados: nat, enRevision: nat, aprobados: nat,
                                   promedioGeneral: Option<real>)

  /** `get_project_statistics`: how many projects in all and in each state, and the
      mean of the grades that are present (absent when none is). */
  function GetProjectStatistics(rows: seq<ProjectRow>): (s: Statistics)
    ensures s.total == |rows|
    ensures s.enviados == Count(rows, (x: ProjectRow) => x.estado == ENVIADO) <= s.total
    ensures s.enRevision == Count(rows, (x: ProjectRow) => x.estado == REVISION) <= s.total
    ensures s.aprobados == Count(rows, (x: ProjectRow) => x.estado == APROBADO) <= s.total
    ensures (forall x :: x in rows ==> x.WellFormed()) ==> s.enviados + s.enRevision + s.aprobados == s.total
    ensures s.promedioGeneral.None? <==> forall x :: x in rows ==> x.calificacion.None?
    ensures s.promedioGeneral == Mean(GradesOf(rows))
    ensures s.promedioGeneral.Some? && (forall x :: x in rows ==> x.WellFormed()) ==>
              0.0 <= s.promedioGeneral.value <= 5.0
  {
    var grades := GradesOf(rows);
    WellFormedStatistics(rows);
    Statistics(|rows|,
               Count(rows, (x: ProjectRow) => x.estado == ENVIADO),
               Count(rows, (x: ProjectRow) => x.estado == REVISION),
               Count(rows, (x: ProjectRow) => x.estado == APROBADO),
               Mean(grades))
  }

  /** Over well-formed rows the three state counts partition the rows and the mean
      grade lies in [0.0, 5.0]. */
  lemma WellFormedStatistics(rows: seq<ProjectRow>)
    ensures (forall x :: x in rows ==> x.WellFormed()) ==>
              Count(rows, (x: ProjectRow) => x.estado == ENVIADO)
              + Count(rows, (x: ProjectRow) => x.estado == REVISION)
              + Count(rows, (x: ProjectRow) => x.estado == APROBADO) == |rows|
    ensures (forall x :: x in rows ==> x.WellFormed()) && GradesOf(rows) != [] ==>
              0.0 <= Mean(GradesOf(rows)).value <= 5.0
  {
    if forall x :: x in rows ==> x.WellFormed() {
      CountPartition3(rows, (x: ProjectRow) => x.estado == ENVIADO,
                      (x: ProjectRow) => x.estado == REVISION, (x: ProjectRow) => x.estado == APROBADO);
      MeanGradeBounds(rows);
    }
  }

  /** The condition `search_projects` keeps: a student user sees only their own
      projects; a non-empty query must occur, ignoring case, in the title or the
      description. */
  predicate SearchMatches(x: ProjectRow, query: string, user: Option<User>)
  {
    && (user.Some? && IsStudent(user.value) ==> x.estudiante == user.value.id)
    && (query == "" || ContainsIgnoreCase(x.titulo, query) || ContainsIgnoreCase(x.descripcion, query))
  }

  /** `search_projects` */
  function SearchProjects(rows: seq<ProjectRow>, query: string, user: Option<User>): (r: seq<ProjectRow>)
    ensures forall x :: x in r <==> x in rows && SearchMatches(x, query, user)
    ensures forall x :: multiset(r)[x] == if SearchMatches(x, query, user) then multiset(rows)[x] else 0
    ensures SortedBy(r, NewerFirst)
  {
    Select(rows, (x: ProjectRow) => SearchMatches(x, query, user))
  }

  /** An empty query filters nothing: a student gets their own projects, anybody else
      (or no user) gets every project. */
  lemma SearchEmptyQuery(rows: seq<ProjectRow>, user: Option<User>)
    ensures user.Some? && IsStudent(user.value) ==>
              forall x :: x in SearchProjects(rows, "", user) <==> x in ProjectsForStudent(rows, user.value)
    ensures !(user.Some? && IsStudent(user.value)) ==>
              forall x :: x in SearchProjects(rows, "", user) <==> x in rows
  {
  }

  /** The grade column of the export: two decimals, or 'Sin calificar' when the grade
      is falsy (absent, or zero). */
  function GradeCell(calificacion: Option<int>): (r: string)
    ensures r == "Sin calificar" <==> calificacion.None? || calificacion.value == 0
    ensures calificacion.Some? && calificacion.value != 0 ==> ParseFixed2(r) == calificacion
  {
    if calificacion.Some? && calificacion.value != 0 then
      Fixed2RoundTrip(calificacion.value);
      assert "Sin calificar"[10] != '.';
      Fixed2(calificacion.value)
    else "Sin calificar"
  }

  const PROJECT_CSV_HEADER: seq<string> :=
    ["ID", "Título", "Estudiante", "Estado", "Fecha Envío", "Fecha Revisión", "Calificación",
     "Total Comentarios"]

  /** One data row of the project export, `owner` being the project's student. */
  function ProjectCsvRow(p: ProjectRow, owner: User, comments: seq<Comentario>): (r: seq<Cell>)
    ensures |r| == |PROJECT_CSV_HEADER|
  {
    [Int(p.id),
     Text(p.titulo),
     Text(DisplayName(owner)),
     Text(EstadoDisplay(p.estado)),
     Timestamp(p.fechaEnvio),
     if p.fechaRevision.Some? then Timestamp(p.fechaRevision.value) else Text("N/A"),
     Text(GradeCell(p.calificacion)),
     Int(TotalComentarios(comments, p.id))]
  }

  /** A data row of the project export has one cell per header; 'N/A' stands exactly
      for a missing review date, 'Sin calificar' exactly for a falsy grade, and the last
      cell counts the project's comments. */
  lemma ProjectCsvRowCells(p: ProjectRow, owner: User, comments: seq<Comentario>)
    ensures var r := ProjectCsvRow(p, owner, comments);
            && |r| == |PROJECT_CSV_HEADER|
            && (r[5] == Text("N/A") <==> p.fechaRevision.None?)
            && (r[6] == Text("Sin calificar") <==> p.calificacion.None? || p.calificacion.value == 0)
            && (p.calificacion.Some? && p.calificacion.value != 0 ==>
                  r[6].Text? && ParseFixed2(r[6].s) == p.calificacion)
            && r[7] == Int(TotalComentarios(comments, p.id))
  {
  }

  /** `export_projects_to_csv`: the BOM, the 8-column header, then one row per project
      in the order given. `users` resolves each project's student. */
  method ExportProjectsToCsv(projects: seq<ProjectRow>, users: map<UserId, User>,
                             comments: seq<Comentario>) returns (doc: CsvDoc)
    requires forall i :: 0 <= i < |projects| ==> projects[i].estudiante in users
    ensures doc.prefix == BOM
    ensures |doc.rows| == |projects| + 1
    ensures doc.rows[0] == HeaderCells(PROJECT_CSV_HEADER)
    ensures forall i :: 0 <= i < |projects| ==>
              doc.rows[i + 1] == ProjectCsvRow(projects[i], users[projects[i].estudiante], comments)
  {
    var out := [HeaderCells(PROJECT_CSV_HEADER)];
    for i := 0 to |projects|
      invariant |out| == i + 1 && out[0] == HeaderCells(PROJECT_CSV_HEADER)
      invariant forall k :: 0 <= k < i ==>
                  out[k + 1] == ProjectCsvRow(projects[k], users[projects[k].estudiante], comments)
    {
      out := out + [ProjectCsvRow(projects[i], users[projects[i].estudiante], comments)];
    }
    doc := CsvDoc(BOM, out);
  }
}
