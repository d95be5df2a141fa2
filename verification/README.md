# ProgreS.O.S. core in Dafny

ProgreS.O.S. is a Django application for tracking academic projects. A student
submits a project (`Proyecto`) with a title, a description and a document. A
teacher reviews it and moves it through three states (`enviado`, `revision`,
`aprobado`), optionally with a grade between 0.00 and 5.00. Anyone may comment
(`Comentario`) until the project is approved, and the owner is notified of new
comments by e-mail. Per-student averages are cached for five minutes, and both
the project list and the student metrics can be exported as CSV.

This project models the business rules of that core and proves properties of
the model:

- **The project record** (`ProjectModel`). `ProjectRow` is a stored row.
  `Proyecto` is the in-memory instance, a class whose `Save` refreshes the review
  date whenever the stored state differs. `ProjectTable` is the table.
- **The services.** `ProjectService` covers permissions, state changes,
  statistics, search and the CSV export. `CommentService` covers comment
  creation and queries. `Email` covers the notification decision, the sending
  contract and the service factory. `StudentMetrics` covers the cached average,
  the per-student counts, the ranking and the metrics export.
- **The request layer.** `ProjectForms` holds the student and review forms and
  the filter choices. `ProjectViews` holds the list, detail, create, update and
  delete views. `ApiViewsets` holds the REST permission, the queryset and the
  `calificar` action.
- **The comment record and its admin preview** (`CommentModel`,
  `CommentAdmin`).

How the database is represented:

- **Tables and queries.** A table is a sequence of rows, and a query is a
  function over it. The default `Meta.ordering` of a table is a stable sort by
  the ordering key, so rows with equal keys keep table order.
- **Time.** Time is a natural-number clock passed to each operation.
- **Users and roles.** Group membership is a set of roles (`Student` for
  'Estudiante', `Teacher` for 'Docente'). A user may be in neither group or in
  both.
- **Grades.** Grades are integer hundredths (`max_digits=4, decimal_places=2`),
  so the valid range is 0..500. Averages are exact rationals in grade units.
- **HTTP.** Responses are status codes: 200 when a form is re-displayed with
  errors, 302 after a successful write, and 400, 403, 404 or 500 otherwise.

Two choices the source leaves open:

- **Ranking order.** `get_all_students_avg` orders by descending average. The
  position of students without an average depends on the database. Here they
  come last, and equal averages are ordered by ascending user id.
- **Approval without a grade.** `change_project_state` and the REST `calificar`
  action both approve a project without a grade. Only the review form forbids
  it. `ProjectForms.ApprovalRuleOnlyInForm` states this difference.

Where the docstring of `get_all_students_avg` says it keeps "only students with
at least one graded project", the code keeps every student with at least one
project. The model follows the code.

## Model

| member | source | states |
|---|---|---|
| ProjectModel.EstadoChoicesAreTheStates | projects_garcia_rodriguez/models.py:22-26 | The state choices are exactly `enviado`, `revision`, `aprobado` (in that order). A string is a state exactly when it is one of the choice values. The default state `enviado` is one of them. |
| ProjectModel.ChoiceValues | projects_garcia_rodriguez/forms.py:88 | The stored values of a choice list, position by position. |
| ProjectModel.LockPredicates | projects_garcia_rodriguez/models.py:103-116 | `puede_editarse` and `permite_comentarios` agree, and both are the negation of `esta_aprobado`. |
| ProjectModel.ProjectRow.BadgeClass | projects_garcia_rodriguez/models.py:118-125 | The badge is bg-info, bg-warning or bg-success for the three states. It is bg-secondary exactly when the value is not a state. |
| ProjectModel.EstadoDisplay | projects_garcia_rodriguez/services/project_service.py:134 | `get_estado_display` gives the label of a state's choice. A value outside the choices is shown as it is. |
| ProjectModel.LabelOf | projects_garcia_rodriguez/services/project_service.py:134 | The label of the first choice with that value, or the value itself when no choice has it. |
| ProjectModel.Find | projects_garcia_rodriguez/models.py:98 | A lookup by primary key finds the position of a row with that id, or proves that no row has it. |
| ProjectModel.Lookup | projects_garcia_rodriguez/models.py:98 | `filter(pk=...).first()` returns a row of the table with that id, or None exactly when no row has it. |
| ProjectModel.LookupMember | projects_garcia_rodriguez/models.py:98 | With unique ids, looking up a row's own id returns that row. |
| ProjectModel.Upsert | projects_garcia_rodriguez/models.py:101 | Saving a row replaces the row with its id, or appends it when the id is new. Every other row stays, nothing else is added, and ids stay unique. |
| ProjectModel.UpsertLookup | projects_garcia_rodriguez/models.py:101 | After a save, looking up the saved id gives the saved row. Looking up any other id gives what it gave before. |
| ProjectModel.NewerFirstIsTotalPreorder | projects_garcia_rodriguez/models.py:86 | Ordering by `-fecha_envio` is a total preorder, so the stable sort is well defined. |
| ProjectModel.Select | projects_garcia_rodriguez/models.py:86 | A filtered query under the default ordering holds exactly the rows that satisfy the filter, as a permutation of the filter, newest submission first. |
| ProjectModel.Remove | projects_garcia_rodriguez/views.py:150-162 | Deleting by id keeps exactly the rows with another id. |
| ProjectModel.GradesOf | projects_garcia_rodriguez/services/project_service.py:158 | The present grades of some rows. The list is empty exactly when no row is graded. Every grade is in range when the rows' grades are valid. |
| ProjectModel.GradesOfValues | projects_garcia_rodriguez/services/project_service.py:158 | A value is in the list exactly when some row carries it as its grade. |
| ProjectModel.GradesOfCount | accounts_garcia_rodriguez/services/student_metrics_service.py:65 | There are as many present grades as there are rows whose grade is not null. |
| ProjectModel.GradesOfMultiplicity | projects_garcia_rodriguez/services/project_service.py:158 | Each value occurs in the list of grades exactly as often as there are rows graded with it. |
| ProjectModel.MeanGradeBounds | projects_garcia_rodriguez/models.py:73-81 | The average of valid grades lies in [0.0, 5.0]. |
| ProjectModel.ProjectTable.constructor | projects_garcia_rodriguez/models.py:10-90 | An empty table whose first primary key is 1. |
| ProjectModel.ProjectTable.Delete | projects_garcia_rodriguez/views.py:160-162 | Deleting a project removes the rows with that id and keeps the table valid. The key counter is unchanged. |
| ProjectModel.RevisionAfterSave | projects_garcia_rodriguez/models.py:95-101 | With no pk, the instance's `fecha_revision` is kept. With a pk whose stored row has a different state, it becomes now. With a stored row in the same state, or with no stored row, it is kept. |
| ProjectModel.Proyecto.constructor | projects_garcia_rodriguez/models.py:54-81 | A new instance has no pk, the default state `enviado`, no review date and no grade. |
| ProjectModel.Proyecto.FromRow | projects_garcia_rodriguez/models.py:10-90 | An instance loaded from a row has that row's pk and fields. |
| ProjectModel.Proyecto.Save | projects_garcia_rodriguez/models.py:95-101 | The save writes the instance into the table under its pk. A new instance gets the next key and its submission date, and the key counter moves past it. `fecha_revision` follows `RevisionAfterSave`, and every other field is unchanged. |
| Aggregates.Mean | projects_garcia_rodriguez/services/project_service.py:158 | `Avg` is None exactly on an empty set of values. |
| Aggregates.SumBounds | projects_garcia_rodriguez/services/project_service.py:158 | A sum of n grades in [0, 500] hundredths lies in [0, 500·n]. |
| Aggregates.MeanBounds | projects_garcia_rodriguez/services/project_service.py:158 | The average of grades in [0, 500] hundredths lies in [0.0, 5.0] grade units. |
| ProjectService.ProjectsForStudent | projects_garcia_rodriguez/services/project_service.py:24-27 | Exactly the student's own projects, each stored row as often as it is stored, newest first. |
| ProjectService.ProjectsForTeacher | projects_garcia_rodriguez/services/project_service.py:29-46 | Without filters, every project. Otherwise the state filter applies only when it is non-empty, and the student filter only when it is given. Each passing row appears as often as it is stored and no other row appears, newest first. |
| ProjectService.FilterAll | projects_garcia_rodriguez/services/project_service.py:37 | A filter that keeps everything returns the table unchanged. |
| ProjectService.CanUserEditProject | projects_garcia_rodriguez/services/project_service.py:48-65 | True for every teacher, whatever the state. For anyone else it is true iff they own the project and it is not approved. |
| ProjectService.CanUserDeleteProject | projects_garcia_rodriguez/services/project_service.py:67-70 | True iff the user owns the project and it is not approved. Teachers are not exempt. |
| ProjectService.PermissionRelations | projects_garcia_rodriguez/services/project_service.py:48-70 | Whoever may delete may edit. A teacher who is not the owner may edit but not delete. On an approved project nobody may delete, and only teachers may edit. |
| ProjectService.ChangedRow | projects_garcia_rodriguez/services/project_service.py:87-96 | A grade outside [0, 5] is rejected with the source's message. Otherwise the new state is set, `fecha_revision` becomes now even when the state is unchanged, and an absent grade keeps the old one. Title, description, owner, document and submission date are kept. |
| ProjectService.ChangedRowKeepsWellFormed | projects_garcia_rodriguez/services/project_service.py:87-96 | A successful change of a well-formed row to a model state gives a well-formed row with the same title, description, owner, document and submission date. Approving an ungraded row succeeds. |
| ProjectService.ChangeProjectState | projects_garcia_rodriguez/services/project_service.py:72-97 | The instance always gets the new state and a fresh review date. An out-of-range grade fails before the save, so the table and the instance's grade stay unchanged. Otherwise the row stored under the pk is exactly `ChangedRow` of the instance's old fields. |
| ProjectService.GetProjectStatistics | projects_garcia_rodriguez/services/project_service.py:143-161 | The total, and one count per state, each at most the total. The counts add up to the total when every state is a model state. The average of present grades is None exactly when nothing is graded, and lies in [0.0, 5.0]. |
| ProjectService.WellFormedStatistics | projects_garcia_rodriguez/services/project_service.py:153-159 | Over well-formed rows, the three state counts partition the table and the average grade lies in [0.0, 5.0]. |
| ProjectService.SearchProjects | projects_garcia_rodriguez/services/project_service.py:163-185 | Students see only their own projects. An empty query skips the text filter. Otherwise a project matches when its title or description contains the query, ignoring case. Each matching row appears as often as it is stored. |
| ProjectService.SearchEmptyQuery | projects_garcia_rodriguez/services/project_service.py:180-185 | An empty query returns a student's own projects, and every project for anyone else. |
| ProjectService.GradeCell | projects_garcia_rodriguez/services/project_service.py:137 | 'Sin calificar' iff the grade is absent or zero. Otherwise two decimals that read back to exactly the grade. |
| ProjectService.ProjectCsvRowCells | projects_garcia_rodriguez/services/project_service.py:130-139 | Eight cells, one per header. 'N/A' iff there is no review date. 'Sin calificar' iff the grade is falsy. The last cell is the project's comment count. |
| ProjectService.ProjectCsvRow | projects_garcia_rodriguez/services/project_service.py:130-139 | A data row has one cell per column of the header. |
| ProjectService.ExportProjectsToCsv | projects_garcia_rodriguez/services/project_service.py:99-141 | The BOM, then the 8-column header, then one row per project in the given order. |
| Text.Fixed2RoundTrip | projects_garcia_rodriguez/services/project_service.py:137 | A number rendered with two decimals reads back to the same hundredths. |
| Text.StripProperties | projects_garcia_rodriguez/views.py:47 | `strip()` gives an empty string exactly for all-whitespace input. Otherwise the result neither starts nor ends with whitespace. |
| Text.Contains | projects_garcia_rodriguez/services/project_service.py:182 | Substring search is true iff the query occurs at some position. |
| Text.ReplaceSuffix | core_garcia_rodriguez/services/email_service.py:93 | Replacing a suffix whose first character does not occur earlier rewrites only that suffix. |
| Text.RoundHalfEven | accounts_garcia_rodriguez/services/student_metrics_service.py:139 | Rounding to the nearest integer, with ties to even. The result is within 0.5 of the input. |
| ProjectForms.FilterChoicesAreAllThenStates | projects_garcia_rodriguez/forms.py:88 | The filter form's state choices are the empty "all" option followed by exactly the model's three states. |
| ProjectForms.ChangedFields | projects_garcia_rodriguez/forms.py:14 | The set of fields in which two rows differ is empty exactly when the rows are equal. |
| ProjectForms.CleanStudentForm | projects_garcia_rodriguez/forms.py:9-14 | The student form accepts exactly a non-blank title of at most 200 characters, a non-blank description, and a document (new or kept). It yields the stripped values. Errors name only the form's own fields. |
| ProjectForms.StudentErrors | projects_garcia_rodriguez/forms.py:14 | The error list is empty iff every field is valid, and it names only the form's fields. |
| ProjectForms.WithStudentData | projects_garcia_rodriguez/forms.py:14 | Saving the student form changes only title, description and document. |
| ProjectForms.Clean | projects_garcia_rodriguez/forms.py:72-82 | `clean` rejects exactly state `aprobado` with no grade, with the source's message. Otherwise it returns the cleaned data unchanged. |
| ProjectForms.ValidateReviewForm | projects_garcia_rodriguez/forms.py:43-82 | The review form accepts exactly a model state together with a blank or in-range grade, as long as it is not approval without a grade. The field's range validators run after `clean()`, so an in-column but out-of-range grade reaches `clean()` as a number: approval reports the missing-grade error only for a blank, unparsable or too-wide grade, and an out-of-range grade always reports the grade error. |
| ProjectForms.ApprovalWithOutOfRangeGrade | projects_garcia_rodriguez/forms.py:72-82 | Approving with 7.00 or -1.00 reports only the grade error, not the missing-grade error. |
| ProjectForms.WithReview | projects_garcia_rodriguez/forms.py:48 | Saving the review form changes only state and grade. |
| ProjectForms.ReviewKeepsWellFormed | projects_garcia_rodriguez/forms.py:72-82 | A row saved through the review form is well-formed. If it is approved, it is graded. |
| ProjectForms.ApprovalRuleOnlyInForm | projects_garcia_rodriguez/forms.py:77-80 | The form rejects approval without a grade, while `change_project_state` approves an ungraded project. |
| ProjectViews.ListQueryset | projects_garcia_rodriguez/views.py:32-53 | Students see exactly their own projects. Everyone else sees the teacher filters plus the trimmed text search. Each shown row appears as often as it is stored, and both lists are newest first. |
| ProjectViews.ListAgreesWithSearch | projects_garcia_rodriguez/views.py:47-51 | For a non-student with no other filter, the list holds exactly what `search_projects` returns for the trimmed query. |
| ProjectViews.DetailObject | projects_garcia_rodriguez/views.py:74-82 | The detail object has the requested pk. A student gets it exactly when the pk exists and the project is theirs. Anyone else gets it whenever the pk exists. |
| ProjectViews.FormClassFor | projects_garcia_rodriguez/views.py:125-129 | Teachers get the review form, everyone else the student form. |
| ProjectViews.CreateProject | projects_garcia_rodriguez/views.py:97-108 | Non-students get 403 and nothing is stored. An invalid form stores nothing. A valid one appends one row owned by the requester, in state `enviado`, submitted now, with no review date and no grade, then redirects. |
| ProjectViews.FormValid | projects_garcia_rodriguez/views.py:104-108 | `form_valid` forces owner and state and appends the new row. |
| ProjectViews.FreshKeyAbsent | projects_garcia_rodriguez/views.py:104-108 | The next primary key is not in use. |
| ProjectViews.ReviewedRow | projects_garcia_rodriguez/views.py:134-139 | The reviewed row differs only in state, grade and review date. The review date becomes now iff the state changed. |
| ProjectViews.UpdateProject | projects_garcia_rodriguez/views.py:116-139 | 404 for an unknown pk, and 403 exactly when `can_user_edit_project` fails. A permitted user gets 302 when the role's form is valid and 200 when it is not. Only a redirect writes. It writes the review-form row for teachers and the student-form row for everyone else. |
| ProjectViews.SaveReview | projects_garcia_rodriguez/views.py:134-139 | Saving a review upserts the reviewed row. |
| ProjectViews.SaveStudentEdit | projects_garcia_rodriguez/views.py:134-139 | Saving a student edit upserts the edited row. |
| ProjectViews.DeleteProject | projects_garcia_rodriguez/views.py:150-162 | 404 for an unknown pk. Otherwise the delete succeeds iff `can_user_delete_project`, removing the project and, by cascade, its comments. A refusal changes nothing. |
| ApiViewsets.HasObjectPermission | core_garcia_rodriguez/viewsets.py:25-28 | Safe methods are allowed to everyone. Unsafe methods are allowed only to the project's owner. |
| ApiViewsets.ApiQueryset | core_garcia_rodriguez/viewsets.py:50-55 | Teachers see all projects, everyone else exactly their own. Each row appears as often as it is stored. |
| ApiViewsets.ApiObject | core_garcia_rodriguez/viewsets.py:68 | `get_object` returns a project of the requester's queryset with that pk. When it finds none, the queryset holds none. |
| ApiViewsets.ApiChangeRights | core_garcia_rodriguez/viewsets.py:25-55 | A non-teacher has every right over their whole API queryset. A teacher's unsafe methods are allowed exactly on their own projects. |
| ApiViewsets.GradedRow | core_garcia_rodriguez/viewsets.py:77-106 | An absent grade or an empty state leaves that field unchanged. The review date follows the `save` rule, and every other field is kept. |
| ApiViewsets.CalificarOutcome | core_garcia_rodriguez/viewsets.py:61-108 | The checks run in order: 404, then 403 for non-teachers, then 500 or 400 for the grade, then 400 for the state. A teacher's request with an acceptable grade and a non-empty state outside the accepted ones gets 400. Something is saved iff the answer is 200, and what is saved is `GradedRow`. |
| ApiViewsets.Calificar | core_garcia_rodriguez/viewsets.py:61-108 | Every rejection leaves the table unchanged. A 200 writes exactly the outcome's row. |
| ApiViewsets.SaveGraded | core_garcia_rodriguez/viewsets.py:77-106 | The loaded instance takes the grade and the non-empty state, and its `save` writes exactly `GradedRow` into the table. |
| ApiViewsets.CalificarStateListMismatch | core_garcia_rodriguez/viewsets.py:96-104 | As written, `calificar` stores the unknown state 'en_revision' and answers 400 to the model state 'revision'. |
| ApiViewsets.CalificarCorrectedKeepsStates | core_garcia_rodriguez/viewsets.py:96-104 | With the model's states as the accepted list, every saved row is well-formed, and every model state with a valid grade is accepted. |
| CommentModel.CommentOrdersArePreorders | comments_garcia_rodriguez/models.py:43 | Ascending and descending creation date are both total preorders. |
| CommentModel.OfProject | comments_garcia_rodriguez/services/comment_service.py:75-78 | A project's comments: exactly those of the project, as a permutation of the filter, oldest first. |
| CommentModel.EsDelDocente | comments_garcia_rodriguez/models.py:51-54 | A comment is a teacher's exactly when its author belongs to the 'Docente' group. |
| CommentModel.AuthorshipProperties | comments_garcia_rodriguez/models.py:51-59 | `es_del_estudiante` holds exactly when the author is the project's owner. A teacher's comment on another student's project is the teacher's and not the student's. A comment by the owner is the student's, and also the teacher's only if the owner is a teacher. |
| CommentModel.TotalComentarios | projects_garcia_rodriguez/models.py:127-129 | The comment count is at most the table size, and zero iff the project has no comment. |
| CommentModel.TotalComentariosCounts | projects_garcia_rodriguez/models.py:127-129 | The count equals the number of the project's comments, each stored comment once. |
| CommentModel.CommentTable.constructor | comments_garcia_rodriguez/models.py:11-38 | An empty comment table whose first key is 1. |
| CommentModel.CommentTable.Create | comments_garcia_rodriguez/models.py:17-38 | Appends exactly one comment with the given project, author and text, created now. The creation date is set here and nowhere else. |
| CommentModel.CommentTable.DeleteForProject | comments_garcia_rodriguez/models.py:17-21 | The cascade removes exactly the comments of the deleted project. |
| Users.NameProperties | accounts_garcia_rodriguez/services/student_metrics_service.py:134 | `get_full_name() or username`: a non-empty full name is shown as is, with no surrounding whitespace; an empty one falls back to the username. |
| Users.FullNameBlank | accounts_garcia_rodriguez/services/student_metrics_service.py:134 | The full name is empty exactly when both the first and the last name are blank. |
| CommentService.CanUserComment | comments_garcia_rodriguez/services/comment_service.py:60-73 | Ignores the user. True iff the project is not approved. |
| CommentService.CreateComment | comments_garcia_rodriguez/services/comment_service.py:23-58 | On an approved project it raises, creates nothing and sends nothing. Otherwise it appends exactly one comment and returns it. Then the notification about the stored comment is sent: nothing for the owner's own comment or an owner without e-mail, otherwise exactly the composed mail (when it renders). Its failure does not prevent the return. |
| CommentService.RecentComments | comments_garcia_rodriguez/services/comment_service.py:80-85 | Returns min(limit, total) comments of the table, newest first, and none left out is newer. No comment appears more often than it is stored. A negative limit is refused. |
| CommentAdmin.TextoTruncado | comments_garcia_rodriguez/admin.py:17-19 | Text of at most 50 characters is unchanged. Longer text becomes its first 50 characters followed by '...'. The result is at most 53 characters and starts with a prefix of the input. |
| Email.ServiceKindFor | core_garcia_rodriguez/services/email_service.py:174-185 | The factory defaults to Console and chooses SMTP for its own path. Only the two shipped class paths are modelled; any other path is treated as one that fails to import. |
| Email.TextTemplateOfHtml | core_garcia_rodriguez/services/email_service.py:93 | The plain-text template name is the HTML name with '.html' replaced by '.txt'. |
| Email.CommentTextTemplate | core_garcia_rodriguez/services/email_service.py:93 | The comment template's plain-text name is 'emails/comment_created.txt'. |
| Email.ComposeMail | core_garcia_rodriguez/services/email_service.py:88-107 | No mail when the HTML template fails. Otherwise the mail has the given subject and recipients, and the HTML body. The plain body comes from the text template or, failing that, is subject + blank line + the context's 'texto'. |
| Email.CommentContext | core_garcia_rodriguez/services/email_service.py:64-69 | The comment notification's context has no 'texto' key, so its plain fallback ends with an empty text. |
| Email.EmailService.constructor | core_garcia_rodriguez/services/email_service.py:51-56 | A service of the given kind that has attempted nothing. |
| Email.EmailService.SendEmail | core_garcia_rodriguez/services/email_service.py:84-114 | Every failure becomes False instead of an exception. A rendered mail is attempted exactly once, and the result is the delivery's result. |
| Email.EmailService.NotifyCommentCreated | core_garcia_rodriguez/services/email_service.py:56-82 | The owner's own comment gives True and sends nothing. An owner without e-mail gives False and sends nothing. Otherwise it makes exactly one send to [owner's e-mail] with subject 'Nuevo comentario en tu proyecto: ' + title and returns its result. The Console and SMTP services share this definition. |
| StudentMetrics.OwnRows | accounts_garcia_rodriguez/services/student_metrics_service.py:42 | `student.proyectos`: exactly the student's projects, each row kept as often as it occurs in the table and in table order. |
| StudentMetrics.StudentAvg | accounts_garcia_rodriguez/services/student_metrics_service.py:42-48 | The mean of the student's non-null grades. None exactly when none is graded, and within [0.0, 5.0] for valid grades. |
| StudentMetrics.CachedValue | accounts_garcia_rodriguez/services/student_metrics_service.py:38 | `cache.get` returns an entry's value only before it expires. |
| StudentMetrics.AvgCache.constructor | accounts_garcia_rodriguez/services/student_metrics_service.py:11 | An empty cache. |
| StudentMetrics.AvgCache.GetStudentAvg | accounts_garcia_rodriguez/services/student_metrics_service.py:22-53 | With caching on, a live cached value is returned and nothing is recomputed or written. Otherwise the average is computed. It is cached for 300 s only when caching is on and it is not None. Without caching, the cache is neither read nor written. A coherent cache stays coherent and answers the true average. |
| StudentMetrics.AvgCache.InvalidateStudentCache | accounts_garcia_rodriguez/services/student_metrics_service.py:144-151 | Removes that student's key and no other. |
| StudentMetrics.InvalidateRestoresCoherence | accounts_garcia_rodriguez/services/student_metrics_service.py:144-151 | After a change to one student's projects, invalidating that student's key leaves every live entry equal to the current average, now and later. |
| StudentMetrics.StaleAverageWithoutInvalidation | accounts_garcia_rodriguez/services/student_metrics_service.py:37-40 | Without invalidation, a cached 4.80 is still returned after the project is regraded to 3.00. |
| StudentMetrics.OwnStatesPartition | accounts_garcia_rodriguez/services/student_metrics_service.py:66-68 | Over well-formed rows, a student's projects split into the three states. |
| StudentMetrics.GetStudentMetrics | accounts_garcia_rodriguez/services/student_metrics_service.py:55-72 | The graded count and each state count are the number of the student's projects that are graded or in that state. They are at most the total, and the three state counts sum to the total over model states. The graded count equals the number of present grades, and the average is None iff nothing is graded. |
| StudentMetrics.RankOf | accounts_garcia_rodriguez/services/student_metrics_service.py:87-91 | A user's annotations: their average, their project count, the number of their graded projects and the number of their approved projects. The graded count is zero iff there is no average. |
| StudentMetrics.RanksBeforeIsTotalPreorder | accounts_garcia_rodriguez/services/student_metrics_service.py:94 | Descending average, absent averages last, then ascending id, is a total preorder. |
| StudentMetrics.RankAll | accounts_garcia_rodriguez/services/student_metrics_service.py:85-93 | Exactly the Estudiante-group users with at least one project, each with their annotations. |
| StudentMetrics.RankAllDistinct | accounts_garcia_rodriguez/services/student_metrics_service.py:85-93 | Distinct user accounts give distinct entries. |
| StudentMetrics.AllStudentsAvg | accounts_garcia_rodriguez/services/student_metrics_service.py:74-96 | Exactly the students with at least one project (graded or not), each with their annotations, in ranking order. |
| StudentMetrics.OneEntryPerStudent | accounts_garcia_rodriguez/services/student_metrics_service.py:74-96 | With distinct accounts, no two ranking entries belong to the same user, so each kept student appears once. |
| StudentMetrics.RankingOrder | accounts_garcia_rodriguez/services/student_metrics_service.py:94 | In the ranking, a student with an average never follows one without, and averages never increase. |
| StudentMetrics.AvgCell | accounts_garcia_rodriguez/services/student_metrics_service.py:139 | 'Sin calificar' iff the average is absent or zero. Otherwise two decimals within half a hundredth of the average. |
| StudentMetrics.EmailCell | accounts_garcia_rodriguez/services/student_metrics_service.py:135 | The e-mail, or 'Sin email' when it is empty. Never empty. |
| StudentMetrics.StudentCsvRowCells | accounts_garcia_rodriguez/services/student_metrics_service.py:133-140 | Six cells, one per header, with the e-mail and average cells above. |
| StudentMetrics.StudentCsvRow | accounts_garcia_rodriguez/services/student_metrics_service.py:133-140 | A data row has one cell per column of the header. |
| StudentMetrics.WriteStudentRows | accounts_garcia_rodriguez/services/student_metrics_service.py:117-140 | The BOM, then the 6-column header, then one row per student of the list, in its order. |
| StudentMetrics.ExportStudentMetricsToCsv | accounts_garcia_rodriguez/services/student_metrics_service.py:98-142 | The BOM, then the 6-column header, then one row per student of the given list, or of the ranking when none is given. |

## Left out

- Django's machinery is not modelled: the ORM, authentication (`LoginRequiredMixin`), messages, templates, crispy layouts and URL routing. Anonymous users are not modelled, and every request comes from a logged-in `User`.
- Uploaded files, `FileExtensionValidator` and `upload_to`: the document is an opaque string.
- `csv.writer` quoting, the `Content-Disposition` header and `strftime`: a timestamp cell holds the clock value (`Cell.Timestamp`).
- Console output of the e-mail services, `DEFAULT_FROM_EMAIL`, and the transport and template engines: rendering and delivery are parameters of the service (`MailEnv`).
- Serializers, the comment views and forms, the account views and the seed-data command are not part of this model.
- Cache internals: the deletion of expired keys on read is not modelled. An expired entry is simply not returned.
- The `estudiante` GET parameter of the list view is taken as already parsed. A non-numeric value, which makes the query fail, is not modelled.
- Case folding in `icontains` is ASCII-only here. The database's Unicode folding is not modelled.
- ApiViewsets.Calificar: the grade is parsed to exact hundredths. `float()` rounding, and assigning a float with more than two decimals to the decimal field, are not modelled.
- StudentMetrics.StudentAvg: the average is the exact rational mean. The database's `Avg` rounding and its Decimal/float conversion are not modelled. The same holds for `promedio_general` of ProjectService.GetProjectStatistics, which uses the same `Aggregates.Mean`.
- ProjectModel.GradesOf: its own contract gives emptiness and range; which values it holds is stated by `GradesOfValues`, how many by `GradesOfCount` and how often each value occurs by `GradesOfMultiplicity`, kept apart so that the statistics and the averages do not carry a quantifier over the rows.
- CommentModel.TotalComentarios: its own contract gives the bound and the zero case; the exact count is stated by `TotalComentariosCounts`, kept apart so that the export rows do not carry the ordered comment listing.
- StudentMetrics.RankAll: one entry per student is stated for distinct accounts, by `RankAllDistinct`. A user sequence that repeats an account is not a user table and is not covered.
- StudentMetrics.AllStudentsAvg: one entry per student is stated for distinct accounts, by `OneEntryPerStudent`, not for a user sequence that repeats an account.
- StudentMetrics.ExportStudentMetricsToCsv: a caller-supplied list is a list of already annotated students. A queryset without the annotations, where `getattr(..., 0)` would supply zeros, is not modelled.
- ProjectService.ChangeProjectState: a project instance that was never saved, with no pk, is saved as a new row. The relation to `ChangedRow` is stated only for an instance that already has a pk.
- ProjectService.ExportProjectsToCsv: the eight-cell width of each data row is stated by `ProjectCsvRowCells` about `ProjectCsvRow`, whose rows the export writes, not again on the method.
- The 200-character limit of `titulo` is checked only by the student form (`CleanStudentForm`), as in the source. The database column length is not modelled.
- Email.ServiceKindFor: in the source a path naming any other importable e-mail class loads that class; the model knows only the two shipped classes and treats every other path as an import failure.

## Findings

| source | as written | input that shows it | evidently intended | confidence | as-written member | corrected member |
|---|---|---|---|---|---|---|
| core_garcia_rodriguez/viewsets.py:97-98 | `calificar` accepts the states 'borrador', 'enviado', 'en_revision', 'aprobado', 'rechazado' | a teacher posts `estado='revision'` (answered 400) or `estado='en_revision'` (stored, although it is not a model state) | accept exactly the model's states 'enviado', 'revision', 'aprobado' | not executed; high | ApiViewsets.CalificarStateListMismatch | ApiViewsets.CalificarCorrectedKeepsStates |
| accounts_garcia_rodriguez/services/student_metrics_service.py:144-151 | `invalidate_student_cache` is defined but never called when a grade is created or changed | average 4.80 cached at time 0, project regraded to 3.00, `get_student_avg` at time 10 returns 4.80 | invalidate the student's key whenever one of their grades changes | not executed; medium | StudentMetrics.StaleAverageWithoutInvalidation | StudentMetrics.InvalidateRestoresCoherence |
