/** The project record (`Proyecto`, projects_garcia_rodriguez/models.py): its fields,
    the three states, the properties derived from the state, and `save`, which
    refreshes the review date when the stored state changes. */
module ProjectModel {
  import opened Results
  import opened Users
  import opened Seqs
  import opened Aggregates

  const ENVIADO: string := "enviado"
  const REVISION: string := "revision"
  const APROBADO: string := "aprobado"

  /** `ESTADO_CHOICES`: stored value and label of each state. */
  const ESTADO_CHOICES: seq<(string, string)> :=
    [(ENVIADO, "Enviado"), (REVISION, "En Revisión"), (APROBADO, "Aprobado")]

  /** The state a new record gets when none is given. */
  const ESTADO_DEFAULT: string := ENVIADO

  /** The state is one of the field's choices. The column itself is a plain string:
      `save` does not check the choices, so other values can be stored. */
  predicate IsEstadoChoice(estado: string)
  {
    estado == ENVIADO || estado == REVISION || estado == APROBADO
  }

  /** The stored values of a choice list, in order. */
  function ChoiceValues(choices: seq<(string, string)>): (r: seq<string>)
    ensures |r| == |choices|
    ensures forall i :: 0 <= i < |r| ==> r[i] == choices[i].0
  {
    seq(|choices|, i requires 0 <= i < |choices| => choices[i].0)
  }

  /** The choice predicate is exactly membership in the choice list, and the default is a choice. */
  lemma EstadoChoicesAreTheStates()
    ensures ChoiceValues(ESTADO_CHOICES) == [ENVIADO, REVISION, APROBADO]
    ensures forall e :: IsEstadoChoice(e) <==> e in ChoiceValues(ESTADO_CHOICES)
    ensures IsEstadoChoice(ESTADO_DEFAULT)
  {
  }

  /** `calificacion` is a `DecimalField(max_digits=4, decimal_places=2)`: the model holds
      it as an integer number of hundredths, so it never has more than two fractional
      digits. Its validators bound it to [0.0, 5.0]. */
  const GRADE_MIN: int := 0
  const GRADE_MAX: int := 500

  predicate GradeInRange(g: int)
  {
    GRADE_MIN <= g <= GRADE_MAX
  }

  predicate ValidGrade(c: Option<int>)
  {
    c.None? || GradeInRange(c.value)
  }

  /** One stored row of the projects table. */
  datatype ProjectRow = ProjectRow(
    id: nat,
    titulo: string,
    descripcion: string,
    estudiante: UserId,
    documento: string,
    estado: string,
    fechaEnvio: nat,
    fechaRevision: Option<nat>,
    calificacion: Option<int>)
  {
    /** `esta_aprobado` */
    predicate EstaAprobado()
    {
      estado == APROBADO
    }

    /** `puede_editarse`: the owning student may still edit. */
    predicate PuedeEditarse()
    {
      estado != APROBADO
    }

    /** `permite_comentarios`: new comments are still accepted. */
    predicate PermiteComentarios()
    {
      estado != APROBADO
    }

    /** `get_badge_class`: the CSS class of the state badge. */
    function BadgeClass(): (r: string)
      ensures estado == ENVIADO ==> r == "bg-info"
      ensures estado == REVISION ==> r == "bg-warning"
      ensures estado == APROBADO ==> r == "bg-success"
      ensures r == "bg-secondary" <==> !IsEstadoChoice(estado)
    {
      var badges := map[ENVIADO := "bg-info", REVISION := "bg-warning", APROBADO := "bg-success"];
      if estado in badges then badges[estado] else "bg-secondary"
    }

    /** The record satisfies the field declarations: a state from the choices and a
        grade, if any, within the validators' range. */
    predicate WellFormed()
    {
      IsEstadoChoice(estado) && ValidGrade(calificacion)
    }
  }

  /** Approval is the lock: editing and commenting are allowed exactly when the record
      is not approved. */
  lemma LockPredicates(p: ProjectRow)
    ensures p.PuedeEditarse() == p.PermiteComentarios() == !p.EstaAprobado()
  {
  }

  /** `get_estado_display()`: the label of a choice, or the stored value itself when it
      is not one of the choices. */
  function EstadoDisplay(estado: string): (r: string)
    ensures forall i :: 0 <= i < |ESTADO_CHOICES| && ESTADO_CHOICES[i].0 == estado ==> r == ESTADO_CHOICES[i].1
    ensures !IsEstadoChoice(estado) ==> r == estado
  {
    LabelOf(ESTADO_CHOICES, estado)
  }

  function LabelOf(choices: seq<(string, string)>, value: string): (r: string)
    ensures (forall i :: 0 <= i < |choices| ==> choices[i].0 != value) ==> r == value
    ensures forall i :: (0 <= i < |choices| && choices[i].0 == value
                         && forall j :: 0 <= j < i ==> choices[j].0 != value) ==> r == choices[i].1
    decreases |choices|
  {
    if choices == [] then value
    else if choices[0].0 == value then choices[0].1
    else LabelOf(choices[1..], value)
  }

  /** Primary keys are unique in a table. */
  predicate UniqueIds(rows: seq<ProjectRow>)
  {
    forall i, j :: 0 <= i < j < |rows| ==> rows[i].id != rows[j].id
  }

  /** Position of the row with primary key `id`, if any. */
  function Find(rows: seq<ProjectRow>, id: nat): (r: Option<nat>)
    ensures r.Some? ==> r.value < |rows| && rows[r.value].id == id
    ensures r.None? ==> forall i :: 0 <= i < |rows| ==> rows[i].id != id
    decreases |rows|
  {
    if rows == [] then None
    else if rows[0].id == id then Some(0)
    else match Find(rows[1..], id)
      case None => None
      case Some(i) => Some(i + 1)
  }

  /** `Proyecto.objects.filter(pk=id).first()` */
  function Lookup(rows: seq<ProjectRow>, id: nat): (r: Option<ProjectRow>)
    ensures r.Some? ==> r.value in rows && r.value.id == id
    ensures r.None? ==> forall x :: x in rows ==> x.id != id
  {
    match Find(rows, id)
    case None => None
    case Some(i) => Some(rows[i])
  }

  /** With unique keys, a row is what looking up its own key returns. */
  lemma LookupMember(rows: seq<ProjectRow>, x: ProjectRow)
    requires UniqueIds(rows) && x in rows
    ensures Lookup(rows, x.id) == Some(x)
  {
    var i :| 0 <= i < |rows| && rows[i] == x;
    var k := Find(rows, x.id).value;
    assert !(k < i) && !(i < k);
  }

  /** The write `save` performs: update the row with the same key, or insert it. */
  function Upsert(rows: seq<ProjectRow>, row: ProjectRow): (r: seq<ProjectRow>)
    ensures forall x :: x in r ==> x == row || x in rows
    ensures forall x :: x in rows && x.id != row.id ==> x in r
    ensures row in r
    ensures UniqueIds(rows) ==> UniqueIds(r)
    ensures Lookup(rows, row.id).Some? ==> |r| == |rows|
    ensures Lookup(rows, row.id).None? ==> r == rows + [row]
  {
    match Find(rows, row.id)
    case Some(i) =>
      var r := rows[i := row];
      assert r[i] == row;
      assert forall x :: x in rows && x.id != row.id ==> x in r by {
        forall x | x in rows && x.id != row.id
          ensures x in r
        {
          var j :| 0 <= j < |rows| && rows[j] == x;
          assert r[j] == x;
        }
      }
      r
    case None => rows + [row]
  }

  /** After an upsert, the written key reads back the written row and every other key
      reads back what it did before. */
  lemma UpsertLookup(rows: seq<ProjectRow>, row: ProjectRow, id: nat)
    requires UniqueIds(rows)
    ensures Lookup(Upsert(rows, row), id) == if id == row.id then Some(row) else Lookup(rows, id)
  {
    var r := Upsert(rows, row);
    if id == row.id {
      LookupMember(r, row);
    } else if Lookup(rows, id).Some? {
      LookupMember(r, Lookup(rows, id).value);
    }
  }

  /** `Meta.ordering = ['-fecha_envio']`: newer submissions first. */
  function NewerFirst(a: ProjectRow, b: ProjectRow): bool
  {
    a.fechaEnvio >= b.fechaEnvio
  }

  lemma NewerFirstIsTotalPreorder()
    ensures TotalPreorder(NewerFirst)
  {
  }

  /** A query over the table: the rows satisfying `p`, in the model's default order.
      Rows with the same submission time keep their table order. */
  function Select(rows: seq<ProjectRow>, p: ProjectRow -> bool): (r: seq<ProjectRow>)
    ensures forall x :: x in r <==> x in rows && p(x)
    ensures SortedBy(r, NewerFirst)
    ensures multiset(r) == multiset(Filter(rows, p))
    ensures forall x :: multiset(r)[x] == if p(x) then multiset(rows)[x] else 0
  {
    var f := Filter(rows, p);
    FilterMultiplicity(rows, p);
    NewerFirstIsTotalPreorder();
    SortSorted(f, NewerFirst);
    SortMembers(f, NewerFirst);
    Sort(f, NewerFirst)
  }

  /** The rows left after deleting the one with primary key `id`. */
  function Remove(rows: seq<ProjectRow>, id: nat): (r: seq<ProjectRow>)
    ensures forall x :: x in r <==> x in rows && x.id != id
  {
    Filter(rows, (x: ProjectRow) => x.id != id)
  }

  /** The present grades of the given rows, in row order (the non-null
      `calificacion` values). */
  function GradesOf(rows: seq<ProjectRow>): (g: seq<int>)
    ensures |g| <= |rows|
    ensures g == [] <==> forall x :: x in rows ==> x.calificacion.None?
    ensures (forall x :: x in rows ==> ValidGrade(x.calificacion)) ==> forall i :: 0 <= i < |g| ==> GradeInRange(g[i])
    decreases |rows|
  {
    if rows == [] then []
    else
      var last := rows[|rows| - 1];
      var init := rows[..|rows| - 1];
      assert forall x :: x in init ==> x in rows;
      assert rows == init + [last];
      GradesOf(init) + (if last.calificacion.Some? then [last.calificacion.value] else [])
  }

  /** The list holds exactly the grades the rows carry. */
  lemma {:induction false} GradesOfValues(rows: seq<ProjectRow>)
    ensures forall v :: v in GradesOf(rows) <==> exists x :: x in rows && x.calificacion == Some(v)
    decreases |rows|
  {
    if rows != [] {
      var init, last := rows[..|rows| - 1], rows[|rows| - 1];
      GradesOfValues(init);
      assert rows == init + [last];
      assert forall x :: x in rows <==> x in init || x == last;
    }
  }

  /** Each grade occurs in the list as often as rows carry it. */
  lemma {:induction false} GradesOfMultiplicity(rows: seq<ProjectRow>)
    ensures forall v :: multiset(GradesOf(rows))[v] == Count(rows, (x: ProjectRow) => x.calificacion == Some(v))
    decreases |rows|
  {
    if rows != [] {
      var init, last := rows[..|rows| - 1], rows[|rows| - 1];
      GradesOfMultiplicity(init);
      assert rows == init + [last];
      forall v
        ensures multiset(GradesOf(rows))[v] == Count(rows, (x: ProjectRow) => x.calificacion == Some(v))
      {
        CountSnoc(init, last, (x: ProjectRow) => x.calificacion == Some(v));
      }
    }
  }

  /** The mean of grades that satisfy the validators lies in [0.0, 5.0]. */
  lemma MeanGradeBounds(rows: seq<ProjectRow>)
    ensures (forall x :: x in rows ==> ValidGrade(x.calificacion)) && GradesOf(rows) != [] ==>
              0.0 <= Mean(GradesOf(rows)).value <= 5.0
  {
    if (forall x :: x in rows ==> ValidGrade(x.calificacion)) && GradesOf(rows) != [] {
      MeanBounds(GradesOf(rows));
    }
  }

  /** The number of present grades is the number of graded rows. */
  lemma {:induction false} GradesOfCount(rows: seq<ProjectRow>)
    ensures |GradesOf(rows)| == Count(rows, (x: ProjectRow) => x.calificacion.Some?)
    decreases |rows|
  {
    if rows != [] {
      GradesOfCount(rows[..|rows| - 1]);
      CountSnoc(rows[..|rows| - 1], rows[|rows| - 1], (x: ProjectRow) => x.calificacion.Some?);
      assert rows == rows[..|rows| - 1] + [rows[|rows| - 1]];
    }
  }

  /** The table of projects: its rows and the next key the database will allocate
      (keys are never reused). */
  class ProjectTable {
    var rows: seq<ProjectRow>
    var nextId: nat

    ghost predicate Valid()
      reads this
    {
      UniqueIds(rows) && forall i :: 0 <= i < |rows| ==> rows[i].id < nextId
    }

    constructor ()
      ensures Valid() && rows == [] && nextId == 1
    {
      rows := [];
      nextId := 1;
    }

    /** `delete()` on the row with primary key `id`. */
    method Delete(id: nat)
      requires Valid()
      modifies this
      ensures Valid() && nextId == old(nextId)
      ensures rows == Remove(old(rows), id)
    {
      var r := Remove(rows, id);
      FilterSorted(rows, (x: ProjectRow) => x.id != id, (a: ProjectRow, b: ProjectRow) => a.id != b.id);
      rows := r;
    }
  }

  /** What `save` leaves in `fecha_revision`: for an instance with a (truthy) primary
      key whose stored row has a different state, the current time; otherwise the
      instance's own value. */
  function RevisionAfterSave(rows: seq<ProjectRow>, pk: Option<nat>, estado: string,
                             fechaRevision: Option<nat>, now: nat): (r: Option<nat>)
    ensures (pk.None? || pk.value == 0) ==> r == fechaRevision
    ensures (pk.Some? && pk.value != 0 && Lookup(rows, pk.value).Some?
             && Lookup(rows, pk.value).value.estado != estado) ==> r == Some(now)
    ensures (pk.Some? && pk.value != 0 && Lookup(rows, pk.value).Some?
             && Lookup(rows, pk.value).value.estado == estado) ==> r == fechaRevision
    ensures pk.Some? && Lookup(rows, pk.value).None? ==> r == fechaRevision
  {
    if pk.Some? && pk.value != 0 then
      match Lookup(rows, pk.value)
      case Some(stored) => if stored.estado != estado then Some(now) else fechaRevision
      case None => fechaRevision
    else fechaRevision
  }

  /** A model instance (`Proyecto` object): field values held in memory, written to the
      table by `Save`. */
  class Proyecto {
    var pk: Option<nat>
    var titulo: string
    var descripcion: string
    var estudiante: UserId
    var documento: string
    var estado: string
    var fechaEnvio: nat
    var fechaRevision: Option<nat>
    var calificacion: Option<int>

    /** `Proyecto(titulo=..., descripcion=..., estudiante=..., documento=...)`: an unsaved
        instance with the field defaults (state 'enviado', no grade, no review date). */
    constructor (titulo: string, descripcion: string, estudiante: UserId, documento: string)
      ensures this.pk == None
      ensures this.titulo == titulo && this.descripcion == descripcion
      ensures this.estudiante == estudiante && this.documento == documento
      ensures this.estado == ESTADO_DEFAULT && this.fechaRevision == None && this.calificacion == None
    {
      this.pk := None;
      this.titulo := titulo;
      this.descripcion := descripcion;
      this.estudiante := estudiante;
      this.documento := documento;
      this.estado := ESTADO_DEFAULT;
      this.fechaEnvio := 0;
      this.fechaRevision := None;
      this.calificacion := None;
    }

    /** An instance loaded from a stored row. */
    constructor FromRow(row: ProjectRow)
      ensures pk == Some(row.id) && Snapshot(row.id) == row
    {
      pk := Some(row.id);
      titulo := row.titulo;
      descripcion := row.descripcion;
      estudiante := row.estudiante;
      documento := row.documento;
      estado := row.estado;
      fechaEnvio := row.fechaEnvio;
      fechaRevision := row.fechaRevision;
      calificacion := row.calificacion;
    }

    /** The row this instance writes under primary key `id`. */
    function Snapshot(id: nat): ProjectRow
      reads this
    {
      ProjectRow(id, titulo, descripcion, estudiante, documento, estado, fechaEnvio,
                 fechaRevision, calificacion)
    }

    /** `save()`: refresh `fecha_revision` when the stored state differs, then write the
        row (an insert, with a new key and `fecha_envio` set, when there is no key yet). */
    method Save(table: ProjectTable, now: nat)
      requires table.Valid()
      modifies this, table
      ensures table.Valid()
      ensures pk.Some? && table.rows == Upsert(old(table.rows), Snapshot(pk.value))
      ensures old(pk).None? ==> pk == Some(old(table.nextId)) && fechaEnvio == now
      ensures old(pk).Some? ==> pk == old(pk) && fechaEnvio == old(fechaEnvio)
      ensures old(pk).None? ==> table.nextId == old(table.nextId) + 1
      ensures old(pk).Some? ==> table.nextId == if old(pk).value < old(table.nextId) then old(table.nextId) else old(pk).value + 1
      ensures fechaRevision == RevisionAfterSave(old(table.rows), old(pk), estado, old(fechaRevision), now)
      ensures titulo == old(titulo) && descripcion == old(descripcion) && estudiante == old(estudiante)
      ensures documento == old(documento) && estado == old(estado) && calificacion == old(calificacion)
    {
      if pk.Some? && pk.value != 0 {
        var stored := Lookup(table.rows, pk.value);
        if stored.Some? && stored.value.estado != estado {
          fechaRevision := Some(now);
        }
      }
      if pk.None? {
        pk := Some(table.nextId);
        fechaEnvio := now;
      }
      var id := pk.value;
      table.rows := Upsert(table.rows, Snapshot(id));
      if id >= table.nextId {
        table.nextId := id + 1;
      }
    }
  }
}
