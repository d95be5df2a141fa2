/** The comment service (comments_garcia_rodriguez/services/comment_service.py):
    who may comment, creating a comment with its best-effort notification, and the
    two comment listings. */
module CommentService {
  import opened Results
  import opened Seqs
  import opened Users
  import opened ProjectModel
  import opened CommentModel
  import opened Email

  const APPROVED_ERROR: string := "No se pueden agregar comentarios a proyectos aprobados."

  /** `can_user_comment`: only the project's state matters, not the user. */
  function CanUserComment(user: User, proyecto: ProjectRow): (b: bool)
    ensures b <==> !proyecto.EstaAprobado()
  {
    proyecto.PermiteComentarios()
  }

  /** `create_comment`: refused on an approved project (no row, no mail); otherwise one
      new row with the given project, author and text, then the notification about
      that stored comment, whose outcome, failure included, does not change the
      result. `owner` is the project's student. */
  method CreateComment(comments: CommentTable, notifier: EmailService, proyecto: ProjectRow,
                       autor: User, owner: User, texto: string, now: nat)
    returns (r: Result<Comentario, string>)
    requires comments.Valid() && owner.id == proyecto.estudiante
    modifies comments, notifier
    ensures comments.Valid()
    ensures r.Err? <==> !CanUserComment(autor, proyecto)
    ensures r.Err? ==> r.error == APPROVED_ERROR && comments.rows == old(comments.rows)
                       && comments.nextId == old(comments.nextId)
                       && notifier.attempts == old(notifier.attempts)
    ensures r.Ok? ==> r.value == Comentario(old(comments.nextId), proyecto.id, autor.id, texto, now)
                      && comments.rows == old(comments.rows) + [r.value]
    ensures r.Ok? && r.value.EsDelEstudiante(proyecto) ==> notifier.attempts == old(notifier.attempts)
    ensures r.Ok? && !r.value.EsDelEstudiante(proyecto) && owner.email == "" ==>
              notifier.attempts == old(notifier.attempts)
    ensures r.Ok? && !r.value.EsDelEstudiante(proyecto) && owner.email != "" ==>
              var m := ComposeMail(notifier.env, NOTIFY_SUBJECT_PREFIX + proyecto.titulo, [owner.email],
                                   CommentContext(proyecto, r.value, owner, autor.username), COMMENT_TEMPLATE);
              && (m.None? ==> notifier.attempts == old(notifier.attempts))
              && (m.Some? ==> notifier.attempts == old(notifier.attempts) + [m.value])
    ensures old(notifier.attempts) <= notifier.attempts
    ensures |notifier.attempts| <= |old(notifier.attempts)| + 1
  {
    if !proyecto.PermiteComentarios() {
      return Err(APPROVED_ERROR);
    }
    var c := comments.Create(proyecto.id, autor.id, texto, now);
    var _ := notifier.NotifyCommentCreated(proyecto, c, owner, autor.username);
    return Ok(c);
  }

  /** `get_recent_comments(limit)`: the `limit` newest comments of the whole table,
      newest first. A negative limit is refused (negative slicing of a query). */
  function RecentComments(rows: seq<Comentario>, limit: int): (r: Option<seq<Comentario>>)
    ensures r.None? <==> limit < 0
    ensures r.Some? ==> |r.value| == if limit < |rows| then limit else |rows|
    ensures r.Some? ==> SortedBy(r.value, NewestFirst)
    ensures r.Some? ==> forall c :: c in r.value ==> c in rows
    ensures r.Some? ==> multiset(r.value) <= multiset(rows)
    ensures r.Some? ==> forall c, d :: c in r.value && d in rows && d !in r.value ==>
                          c.fechaCreacion >= d.fechaCreacion
  {
    if limit < 0 then None
    else
      var s := Sort(rows, NewestFirst);
      var k := if limit < |rows| then limit else |rows|;
      PrefixMultiset(s, k);
      CommentOrdersArePreorders();
      SortSorted(rows, NewestFirst);
      SortMembers(rows, NewestFirst);
      assert forall c, d :: c in s[..k] && d in rows && d !in s[..k] ==>
                            c.fechaCreacion >= d.fechaCreacion by {
        forall c, d | c in s[..k] && d in rows && d !in s[..k]
          ensures c.fechaCreacion >= d.fechaCreacion
        {
          var i :| 0 <= i < k && s[i] == c;
          var j :| 0 <= j < |s| && s[j] == d;
        }
      }
      Some(s[..k])
  }
}
