/** The comment preview of the admin list (`ComentarioAdmin.texto_truncado`,
    comments_garcia_rodriguez/admin.py). */
module CommentAdmin {

  /** How many characters of a comment the preview keeps before the ellipsis. */
  const PREVIEW_LENGTH: nat := 50

  /** A comment longer than the preview length is cut to its first 50 characters and
      marked with "..."; a shorter one is shown whole. */
  function TextoTruncado(texto: string): (r: string)
    ensures |texto| <= PREVIEW_LENGTH ==> r == texto
    ensures |texto| > PREVIEW_LENGTH ==> r == texto[..PREVIEW_LENGTH] + "..."
    ensures |r| <= PREVIEW_LENGTH + 3
    ensures texto[..if |texto| <= PREVIEW_LENGTH then |texto| else PREVIEW_LENGTH] <= r
  {
    if |texto| > PREVIEW_LENGTH then
      texto[..PREVIEW_LENGTH] + "..."
    else
      texto
  }
}
