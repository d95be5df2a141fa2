/** The project pages (projects_garcia_rodriguez/views.py): the role mixins, the list
    and detail querysets, creation, update and deletion. A request comes from an
    authenticated user; a write answers with a redirect (302) on success, the page
    again (200) when the form is invalid, 403 when `test_func` refuses and 404 when
    the object does not exist. */
module ProjectViews {
  import opened Results
  import opened Seqs
  import opened Text
  import opened Users
  import opened Http
  import opened ProjectModel
  import opened CommentModel
  import opened ProjectService
  import opened ProjectForms

  /** The list page's query parameters: `estado`, `estudiante` (absent when empty) and
      `buscar`. */
  datatype ListParams = ListParams(estado: string, estudiante: Option<UserId>, buscar: string)

  /** The teacher search of the list page: the stripped `buscar` text, when non-empty,
      must occur in the title or the description, ignoring case. */
  predicate BuscarMatches(x: ProjectRow, buscar: string)
  {
    Strip(buscar) == "" || ContainsIgnoreCase(x.titulo, Strip(buscar)) || ContainsIgnoreCase(x.descripcion, Strip(buscar))
  }

  /** What the list page shows a user outside the Estudiante group: the rows that pass
      the state and student filters and the text search. */
  predicate ListMatches(x: ProjectRow, params: ListParams)
  {
    PassesFilters(x, TeacherFilters(params.estado, params.estudiante)) && BuscarMatches(x, params.buscar)
  }

  /** `ProyectoListView.get_queryset`: a student sees their own projects and nothing
      else; any other user sees every project that passes the state and student
      filters and the text search. Either way each stored row appears once per
      occurrence and newer submissions come first. */
  function ListQueryset(rows: seq<ProjectRow>, user: User, params: ListParams): (r: seq<ProjectRow>)
    ensures IsStudent(user) ==> forall x :: x in r <==> x in rows && x.estudiante == user.id
    ensures IsStudent(user) ==> forall x :: multiset(r)[x] == if x.estudiante == user.id then multiset(rows)[x] else 0
    ensures !IsStudent(user) ==> forall x :: x in r <==> x in rows && ListMatches(x, params)
    ensures !IsStudent(user) ==> forall x :: multiset(r)[x] == if ListMatches(x, params) then multiset(rows)[x] else 0
    ensures SortedBy(r, NewerFirst)
  {
    if IsStudent(user) then ProjectsForStudent(rows, user)
    else
      var qs := ProjectsForTeacher(rows, Some(TeacherFilters(params.estado, params.estudiante)));
      var buscar := Strip(params.buscar);
      var searched := if buscar != "" then Filter(qs, (x: ProjectRow) => BuscarMatches(x, params.buscar)) else qs;
      FilterMultiplicity(qs, (x: ProjectRow) => BuscarMatches(x, params.buscar));
      assert forall x :: multiset(searched)[x] == if ListMatches(x, params) then multiset(rows)[x] else 0;
      NewerFirstIsTotalPreorder();
      SortSorted(searched, NewerFirst);
      SortMembers(searched, NewerFirst);
      Sort(searched, NewerFirst)
  }

  /** For a user outside the Estudiante group, the list page with no filters shows the
      projects `search_projects` finds for the stripped text. */
  lemma ListAgreesWithSearch(rows: seq<ProjectRow>, user: User, buscar: string)
    requires !IsStudent(user)
    ensures forall x :: x in ListQueryset(rows, user, ListParams("", None, buscar))
                        <==> x in SearchProjects(rows, Strip(buscar), Some(user))
  {
  }

  /** `ProyectoDetailView.get_object`: a student reaches only their own projects, any
      other user every project; None is a 404. */
  function DetailObject(rows: seq<ProjectRow>, user: User, pk: nat): (r: Option<ProjectRow>)
    ensures r.Some? ==> r.value in rows && r.value.id == pk
    ensures r.Some? && IsStudent(user) ==> r.value.estudiante == user.id
    ensures UniqueIds(rows) && !IsStudent(user) ==> (r.Some? <==> exists x :: x in rows && x.id == pk)
    ensures UniqueIds(rows) && IsStudent(user) ==>
              (r.Some? <==> exists x :: x in rows && x.id == pk && x.estudiante == user.id)
  {
    match Lookup(rows, pk)
    case None => None
    case Some(row) => if IsStudent(user) && row.estudiante != user.id then None else Some(row)
  }

  /** The two forms of the edit page. */
  datatype FormClass = StudentForm | ReviewForm

  /** `ProyectoUpdateView.get_form_class`: members of the Docente group review; everybody
      else, students included, edits. */
  function FormClassFor(user: User): (f: FormClass)
    ensures f == ReviewForm <==> IsTeacher(user)
  {
    if IsTeacher(user) then ReviewForm else StudentForm
  }

  /** A submitted edit form. Each form reads only its own fields from it. */
  datatype PostData = PostData(titulo: string, descripcion: string, documento: Option<string>,
                               estado: string, calificacion: GradeEntry)

  /** `ProyectoCreateView`: only members of the Estudiante group get in (403 for anybody
      else); a valid student form creates the project with the requesting user as owner
      and the initial state, whatever else was submitted. */
  method CreateProject(table: ProjectTable, user: User, post: PostData, now: nat) returns (status: int)
    requires table.Valid()
    modifies table
    ensures table.Valid()
    ensures !IsStudent(user) ==> status == FORBIDDEN && table.rows == old(table.rows)
    ensures IsStudent(user) && CleanStudentForm(StudentInput(post.titulo, post.descripcion, post.documento), None).Err? ==>
              status == OK && table.rows == old(table.rows)
    ensures IsStudent(user) && CleanStudentForm(StudentInput(post.titulo, post.descripcion, post.documento), None).Ok? ==>
              var d := CleanStudentForm(StudentInput(post.titulo, post.descripcion, post.documento), None).value;
              && status == FOUND
              && table.rows == old(table.rows)
                   + [ProjectRow(old(table.nextId), d.titulo, d.descripcion, user.id, d.documento,
                                 ENVIADO, now, None, None)]
  {
    if !IsStudent(user) {
      return FORBIDDEN;
    }
    var cleaned := CleanStudentForm(StudentInput(post.titulo, post.descripcion, post.documento), None);
    if cleaned.Err? {
      return OK;
    }
    FormValid(table, cleaned.value, user, now);
    status := FOUND;
  }

  /** `ProyectoCreateView.form_valid`: the owner is the requesting user and the state
      is the initial one, whatever the form held; then the new row is inserted. */
  method FormValid(table: ProjectTable, d: StudentData, user: User, now: nat)
    requires table.Valid()
    modifies table
    ensures table.Valid()
    ensures table.rows == old(table.rows)
              + [ProjectRow(old(table.nextId), d.titulo, d.descripcion, user.id, d.documento,
                            ENVIADO, now, None, None)]
  {
    var p := new Proyecto(d.titulo, d.descripcion, 0, d.documento);
    p.estudiante := user.id;
    p.estado := ENVIADO;
    FreshKeyAbsent(table.rows, table.nextId);
    p.Save(table, now);
  }

  /** A key no stored row reaches is not found. */
  lemma FreshKeyAbsent(rows: seq<ProjectRow>, nextId: nat)
    requires forall i :: 0 <= i < |rows| ==> rows[i].id < nextId
    ensures Lookup(rows, nextId).None?
  {
  }

  /** The row the review form saves: its state and grade, and the review date `save`
      refreshes when the state changes. */
  function ReviewedRow(rows: seq<ProjectRow>, row: ProjectRow, c: CleanedReview, now: nat): (r: ProjectRow)
    requires c.estado.Some?
    ensures ChangedFields(row, r) <= REVIEW_FORM_FIELDS + {FechaRevision}
    ensures r.estado == c.estado.value && r.calificacion == c.calificacion
    ensures Lookup(rows, row.id) == Some(row) && row.id != 0 ==>
              r.fechaRevision == if c.estado.value != row.estado then Some(now) else row.fechaRevision
  {
    var w := WithReview(row, c);
    w.(fechaRevision := RevisionAfterSave(rows, Some(row.id), w.estado, row.fechaRevision, now))
  }

  /** `ProyectoUpdateView`: 404 for a missing project, 403 exactly when the user may not
      edit it; then the form for the user's role: 200 when it is invalid, otherwise its
      fields are saved and the answer is 302. */
  method UpdateProject(table: ProjectTable, user: User, pk: nat, post: PostData, now: nat)
    returns (status: int)
    requires table.Valid()
    modifies table
    ensures table.Valid()
    ensures Lookup(old(table.rows), pk).None? ==> status == NOT_FOUND
    ensures Lookup(old(table.rows), pk).Some? && !CanUserEditProject(user, Lookup(old(table.rows), pk).value) ==>
              status == FORBIDDEN
    ensures Lookup(old(table.rows), pk).Some? && CanUserEditProject(user, Lookup(old(table.rows), pk).value) ==>
              var row := Lookup(old(table.rows), pk).value;
              var valid := if FormClassFor(user) == ReviewForm
                           then ValidateReviewForm(ReviewInput(post.estado, post.calificacion)).Ok?
                           else CleanStudentForm(StudentInput(post.titulo, post.descripcion, post.documento), Some(row.documento)).Ok?;
              status == if valid then FOUND else OK
    ensures status != FOUND ==> table.rows == old(table.rows)
    ensures status == FOUND ==> Lookup(old(table.rows), pk).Some?
                                && CanUserEditProject(user, Lookup(old(table.rows), pk).value)
    ensures status == FOUND && FormClassFor(user) == ReviewForm ==>
              var v := ValidateReviewForm(ReviewInput(post.estado, post.calificacion));
              v.Ok? && table.rows == Upsert(old(table.rows), ReviewedRow(old(table.rows), Lookup(old(table.rows), pk).value, v.value, now))
    ensures status == FOUND && FormClassFor(user) == StudentForm ==>
              var row := Lookup(old(table.rows), pk).value;
              var v := CleanStudentForm(StudentInput(post.titulo, post.descripcion, post.documento), Some(row.documento));
              v.Ok? && table.rows == Upsert(old(table.rows), WithStudentData(row, v.value))
  {
    var found := Lookup(table.rows, pk);
    if found.None? {
      return NOT_FOUND;
    }
    var row := found.value;
    if !CanUserEditProject(user, row) {
      return FORBIDDEN;
    }
    if FormClassFor(user) == ReviewForm {
      var v := ValidateReviewForm(ReviewInput(post.estado, post.calificacion));
      if v.Err? {
        return OK;
      }
      SaveReview(table, row, v.value, now);
    } else {
      var v := CleanStudentForm(StudentInput(post.titulo, post.descripcion, post.documento), Some(row.documento));
      if v.Err? {
        return OK;
      }
      SaveStudentEdit(table, row, v.value, now);
    }
    status := FOUND;
  }

  /** `form.save()` of a valid review form on a stored project. */
  method SaveReview(table: ProjectTable, row: ProjectRow, c: CleanedReview, now: nat)
    requires table.Valid() && row in table.rows && c.estado.Some?
    modifies table
    ensures table.Valid()
    ensures table.rows == Upsert(old(table.rows), ReviewedRow(old(table.rows), row, c, now))
  {
    var p := new Proyecto.FromRow(row);
    p.estado := c.estado.value;
    p.calificacion := c.calificacion;
    p.Save(table, now);
  }

  /** `form.save()` of a valid student form on a stored project; the state does not
      change, so neither does the review date. */
  method SaveStudentEdit(table: ProjectTable, row: ProjectRow, d: StudentData, now: nat)
    requires table.Valid() && row in table.rows
    modifies table
    ensures table.Valid()
    ensures table.rows == Upsert(old(table.rows), WithStudentData(row, d))
  {
    LookupMember(table.rows, row);
    assert RevisionAfterSave(table.rows, Some(row.id), row.estado, row.fechaRevision, now) == row.fechaRevision;
    var p := new Proyecto.FromRow(row);
    p.titulo := d.titulo;
    p.descripcion := d.descripcion;
    p.documento := d.documento;
    p.Save(table, now);
    assert p.Snapshot(row.id) == WithStudentData(row, d);
  }

  /** `ProyectoDeleteView`: 404 for a missing project, 403 unless the user may delete
      it; otherwise the project goes and its comments with it. */
  method DeleteProject(table: ProjectTable, comments: CommentTable, user: User, pk: nat) returns (status: int)
    requires table.Valid() && comments.Valid()
    modifies table, comments
    ensures table.Valid() && comments.Valid()
    ensures Lookup(old(table.rows), pk).None? ==> status == NOT_FOUND
    ensures Lookup(old(table.rows), pk).Some? ==>
              (status == FOUND <==> CanUserDeleteProject(user, Lookup(old(table.rows), pk).value))
    ensures status != FOUND ==> status in {NOT_FOUND, FORBIDDEN}
                                && table.rows == old(table.rows) && comments.rows == old(comments.rows)
    ensures status == FOUND ==> table.rows == Remove(old(table.rows), pk)
                                && comments.rows == Filter(old(comments.rows), (c: Comentario) => c.proyecto != pk)
  {
    var found := Lookup(table.rows, pk);
    if found.None? {
      return NOT_FOUND;
    }
    if !CanUserDeleteProject(user, found.value) {
      return FORBIDDEN;
    }
    table.Delete(pk);
    comments.DeleteForProject(pk);
    status := FOUND;
  }
}
