/** The e-mail notification service (core_garcia_rodriguez/services/email_service.py).
    Template rendering and the mail transport belong to the framework; they enter the
    model as an environment: `render` gives a template's output or fails, `deliver`
    says whether the transport accepted a message. `ConsoleEmailService` and
    `SMTPEmailService` differ only in what they print, so both are one definition
    here, selected by `EmailServiceKind`. */
module Email {
  import opened Results
  import opened Text
  import opened Users
  import opened ProjectModel
  import opened CommentModel

  datatype EmailServiceKind = Console | Smtp

  /** The settings value that selects each implementation. */
  const CONSOLE_SERVICE_PATH: string := "core_garcia_rodriguez.services.email_service.ConsoleEmailService"
  const SMTP_SERVICE_PATH: string := "core_garcia_rodriguez.services.email_service.SMTPEmailService"

  /** `get_email_service`: the class named by `EMAIL_SERVICE_CLASS`, Console when the
      setting is absent; a path naming neither class fails to import. */
  function ServiceKindFor(setting: Option<string>): (r: Result<EmailServiceKind, string>)
    ensures setting.None? ==> r == Ok(Console)
    ensures r == Ok(Smtp) <==> setting == Some(SMTP_SERVICE_PATH)
    ensures r.Err? <==> setting.Some? && setting.value !in {CONSOLE_SERVICE_PATH, SMTP_SERVICE_PATH}
  {
    match setting
    case None => Ok(Console)
    case Some(path) =>
      if path == CONSOLE_SERVICE_PATH then Ok(Console)
      else if path == SMTP_SERVICE_PATH then Ok(Smtp)
      else Err("ImportError: " + path)
  }

  /** A template context, with each object given by the text it renders as. */
  type Context = map<string, string>

  /** The framework side of sending: template rendering (None when the template is
      missing or fails) and the transport's verdict on a message. */
  datatype MailEnv = MailEnv(render: (string, Context) -> Option<string>, deliver: Mail -> bool)

  /** One call of `send_mail`. */
  datatype Mail = Mail(subject: string, message: string, recipients: seq<string>, html: string)

  /** The template whose output is the notification's HTML body. */
  const COMMENT_TEMPLATE: string := COMMENT_TEMPLATE_BASE + ".html"
  const COMMENT_TEMPLATE_BASE: string := "emails/comment_created"

  const NOTIFY_SUBJECT_PREFIX: string := "Nuevo comentario en tu proyecto: "

  /** The plain-text variant of a template: every ".html" replaced by ".txt". */
  function TextTemplateName(template: string): string
  {
    ReplaceAll(template, ".html", ".txt")
  }

  /** A template name with one ".html" extension gets the ".txt" extension instead, the
      rest of the name unchanged. */
  lemma TextTemplateOfHtml(base: string)
    requires '.' !in base
    ensures TextTemplateName(base + ".html") == base + ".txt"
  {
    ReplaceSuffix(base, ".html", ".txt");
  }

  /** The notification's plain-text template. */
  lemma CommentTextTemplate()
    ensures TextTemplateName(COMMENT_TEMPLATE) == COMMENT_TEMPLATE_BASE + ".txt"
  {
    assert forall i :: 0 <= i < |COMMENT_TEMPLATE_BASE| ==> COMMENT_TEMPLATE_BASE[i] != '.';
    TextTemplateOfHtml(COMMENT_TEMPLATE_BASE);
  }

  /** `context.get('texto', '')` */
  function ContextTexto(context: Context): string
  {
    if "texto" in context then context["texto"] else ""
  }

  /** The message `send_email` hands to the transport, or None when rendering the HTML
      template fails (which ends the call with False before any send). The plain body
      is the text template's output, or the subject, a blank line and the context's
      'texto' when that template fails. */
  function ComposeMail(env: MailEnv, subject: string, to: seq<string>, context: Context,
                       template: string): (r: Option<Mail>)
    ensures r.None? <==> env.render(template, context).None?
    ensures r.Some? ==> r.value.subject == subject && r.value.recipients == to
                        && r.value.html == env.render(template, context).value
    ensures r.Some? && env.render(TextTemplateName(template), context).Some? ==>
              r.value.message == env.render(TextTemplateName(template), context).value
    ensures r.Some? && env.render(TextTemplateName(template), context).None? ==>
              r.value.message == subject + "\n\n" + ContextTexto(context)
  {
    match env.render(template, context)
    case None => None
    case Some(html) =>
      var plain :=
        match env.render(TextTemplateName(template), context)
        case Some(text) => text
        case None => subject + "\n\n" + ContextTexto(context);
      Some(Mail(subject, plain, to, html))
  }

  /** The context `notify_comment_created` renders with. It has no 'texto' entry. */
  function CommentContext(proyecto: ProjectRow, comentario: Comentario, owner: User, autor: string): (ctx: Context)
    ensures "texto" !in ctx && ContextTexto(ctx) == ""
  {
    map["proyecto" := proyecto.titulo, "comentario" := comentario.texto,
        "estudiante" := owner.username, "autor" := autor]
  }

  /** A notification service instance; `attempts` records every message handed to the
      transport, in order. */
  class EmailService {
    const kind: EmailServiceKind
    const env: MailEnv
    var attempts: seq<Mail>

    constructor (kind: EmailServiceKind, env: MailEnv)
      ensures this.kind == kind && this.env == env && attempts == []
    {
      this.kind := kind;
      this.env := env;
      attempts := [];
    }

    /** `send_email`: render, hand one message to the transport, and report success;
        every failure becomes False instead of an exception. */
    method SendEmail(subject: string, to: seq<string>, context: Context, template: string)
      returns (ok: bool)
      modifies this
      ensures ComposeMail(env, subject, to, context, template).None? ==>
                !ok && attempts == old(attempts)
      ensures ComposeMail(env, subject, to, context, template).Some? ==>
                var m := ComposeMail(env, subject, to, context, template).value;
                attempts == old(attempts) + [m] && ok == env.deliver(m)
    {
      var composed := ComposeMail(env, subject, to, context, template);
      if composed.None? {
        return false;
      }
      attempts := attempts + [composed.value];
      ok := env.deliver(composed.value);
    }

    /** `notify_comment_created`: nothing is sent for the owner's own comment (True) or
        when the owner has no e-mail address (False); otherwise exactly one send to the
        owner's address, whose result is returned. `owner` is the project's student,
        `autorName` the author's rendering in the template. */
    method NotifyCommentCreated(proyecto: ProjectRow, comentario: Comentario, owner: User,
                                autorName: string) returns (ok: bool)
      requires owner.id == proyecto.estudiante && comentario.proyecto == proyecto.id
      modifies this
      ensures comentario.EsDelEstudiante(proyecto) ==> ok && attempts == old(attempts)
      ensures !comentario.EsDelEstudiante(proyecto) && owner.email == "" ==>
                !ok && attempts == old(attempts)
      ensures !comentario.EsDelEstudiante(proyecto) && owner.email != "" ==>
                var subject := NOTIFY_SUBJECT_PREFIX + proyecto.titulo;
                var m := ComposeMail(env, subject, [owner.email],
                                     CommentContext(proyecto, comentario, owner, autorName),
                                     COMMENT_TEMPLATE);
                (m.None? ==> !ok && attempts == old(attempts))
                && (m.Some? ==> attempts == old(attempts) + [m.value] && ok == env.deliver(m.value)
                                && m.value.recipients == [owner.email] && m.value.subject == subject)
    {
      if comentario.autor == proyecto.estudiante {
        return true;
      }
      var context := CommentContext(proyecto, comentario, owner, autorName);
      var subject := NOTIFY_SUBJECT_PREFIX + proyecto.titulo;
      var toEmails := if owner.email != "" then [owner.email] else [];
      if toEmails == [] {
        return false;
      }
      ok := SendEmail(subject, toEmails, context, COMMENT_TEMPLATE);
    }
  }
}
