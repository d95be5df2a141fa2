/** The comment record (`Comentario`, comments_garcia_rodriguez/models.py): its fields,
    its default order, the two authorship properties, and the append-only table. */
module CommentModel {
  import opened Users
  import opened Seqs
  import opened ProjectModel

  /** One stored comment. `fechaCreacion` is `auto_now_add`: written once, when the
      row is created. */
  datatype Comentario = Comentario(
    id: nat,
    proyecto: nat,
    autor: UserId,
    texto: string,
    fechaCreacion: nat)
  {
    /** `es_del_estudiante`: the author is the owner of the commented project. */
    predicate EsDelEstudiante(p: ProjectRow)
      requires p.id == proyecto
    {
      autor == p.estudiante
    }
  }

  /** `es_del_docente`: the author (the user with the comment's `autor` key) is in the
      Docente group. */
  predicate EsDelDocente(c: Comentario, autor: User): (b: bool)
    requires autor.id == c.autor
    ensures b <==> Teacher in autor.roles
  {
    IsTeacher(autor)
  }

  /** The two authorship properties are independent: `es_del_estudiante` compares the
      author with the project's owner, `es_del_docente` looks only at the author's
      group. A teacher commenting on a project they do not own is the teacher's
      comment and not the student's; the owner's comment is the student's whatever
      their groups. */
  lemma AuthorshipProperties(c: Comentario, p: ProjectRow, autor: User, owner: User)
    requires p.id == c.proyecto && autor.id == c.autor && owner.id == p.estudiante
    ensures c.EsDelEstudiante(p) <==> autor.id == owner.id
    ensures EsDelDocente(c, autor) <==> IsTeacher(autor)
    ensures IsTeacher(autor) && autor.id != owner.id ==> EsDelDocente(c, autor) && !c.EsDelEstudiante(p)
    ensures autor == owner ==> c.EsDelEstudiante(p) && (EsDelDocente(c, autor) <==> IsTeacher(owner))
  {
  }

  /** `Meta.ordering = ['fecha_creacion']`: older comments first. */
  function OlderFirst(a: Comentario, b: Comentario): bool
  {
    a.fechaCreacion <= b.fechaCreacion
  }

  /** `order_by('-fecha_creacion')`: newer comments first. */
  function NewestFirst(a: Comentario, b: Comentario): bool
  {
    a.fechaCreacion >= b.fechaCreacion
  }

  lemma CommentOrdersArePreorders()
    ensures TotalPreorder(OlderFirst) && TotalPreorder(NewestFirst)
  {
  }

  /** The comments of project `pid` (`proyecto.comentarios`), in their default order. */
  function OfProject(rows: seq<Comentario>, pid: nat): (r: seq<Comentario>)
    ensures forall c :: c in r <==> c in rows && c.proyecto == pid
    ensures multiset(r) == multiset(Filter(rows, (c: Comentario) => c.proyecto == pid))
    ensures forall c :: multiset(r)[c] == if c.proyecto == pid then multiset(rows)[c] else 0
    ensures SortedBy(r, OlderFirst)
  {
    var f := Filter(rows, (c: Comentario) => c.proyecto == pid);
    FilterMultiplicity(rows, (c: Comentario) => c.proyecto == pid);
    CommentOrdersArePreorders();
    SortSorted(f, OlderFirst);
    SortMembers(f, OlderFirst);
    Sort(f, OlderFirst)
  }

  /** `total_comentarios()` (projects_garcia_rodriguez/models.py): how many comments
      project `pid` has. */
  function TotalComentarios(rows: seq<Comentario>, pid: nat): (n: nat)
    ensures n <= |rows|
    ensures n == 0 <==> forall c :: c in rows ==> c.proyecto != pid
  {
    var f := Filter(rows, (c: Comentario) => c.proyecto == pid);
    assert |f| > 0 ==> f[0] in f;
    Count(rows, (c: Comentario) => c.proyecto == pid)
  }

  /** The count is the number of the project's comments: every one of them, each
      stored row once. */
  lemma TotalComentariosCounts(rows: seq<Comentario>, pid: nat)
    ensures TotalComentarios(rows, pid) == |OfProject(rows, pid)|
  {
    var f := Filter(rows, (c: Comentario) => c.proyecto == pid);
    FilterMultiplicity(rows, (c: Comentario) => c.proyecto == pid);
    assert multiset(OfProject(rows, pid)) == multiset(f);
  }

  /** The comments table. Rows are only ever appended, except for the cascade when
      their project is deleted; keys are unique and below `nextId`. */
  class CommentTable {
    var rows: seq<Comentario>
    var nextId: nat

    ghost predicate Valid()
      reads this
    {
      (forall i, j :: 0 <= i < j < |rows| ==> rows[i].id != rows[j].id)
      && forall i :: 0 <= i < |rows| ==> rows[i].id < nextId
    }

    constructor ()
      ensures Valid() && rows == [] && nextId == 1
    {
      rows := [];
      nextId := 1;
    }

    /** `Comentario.objects.create(proyecto=..., autor=..., texto=...)`: append one
        row with a fresh key and the creation time. Existing rows are not touched. */
    method Create(proyecto: nat, autor: UserId, texto: string, now: nat) returns (c: Comentario)
      requires Valid()
      modifies this
      ensures Valid()
      ensures c == Comentario(old(nextId), proyecto, autor, texto, now)
      ensures rows == old(rows) + [c]
      ensures nextId == old(nextId) + 1
    {
      c := Comentario(nextId, proyecto, autor, texto, now);
      rows := rows + [c];
      nextId := nextId + 1;
    }

    /** `on_delete=CASCADE` from the project: drop every comment of project `pid`. */
    method DeleteForProject(pid: nat)
      requires Valid()
      modifies this
      ensures Valid() && nextId == old(nextId)
      ensures rows == Filter(old(rows), (c: Comentario) => c.proyecto != pid)
    {
      var kept := Filter(rows, (c: Comentario) => c.proyecto != pid);
      FilterSorted(rows, (c: Comentario) => c.proyecto != pid, (a: Comentario, b: Comentario) => a.id != b.id);
      assert forall i :: 0 <= i < |kept| ==> kept[i] in rows;
      rows := kept;
    }
  }
}
