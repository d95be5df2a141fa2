/** Per-student metrics (accounts_garcia_rodriguez/services/student_metrics_service.py):
    the average grade with its cache, the per-student counts, the ranked list of
    students and the metrics CSV export. */
module StudentMetrics {
  import opened Results
  import opened Seqs
  import opened Text
  import opened Users
  import opened ProjectModel
  import opened Aggregates
  import opened Csv

  /** `CACHE_TIMEOUT`, in seconds. */
  const CACHE_TIMEOUT: nat := 300

  /** The projects of student `s` (`student.proyectos`). */
  function OwnRows(rows: seq<ProjectRow>, s: UserId): (r: seq<ProjectRow>)
    ensures forall x :: x in r <==> x in rows && x.estudiante == s
    ensures forall x :: multiset(r)[x] == if x.estudiante == s then multiset(rows)[x] else 0
  {
    FilterMultiplicity(rows, (x: ProjectRow) => x.estudiante == s);
    Filter(rows, (x: ProjectRow) => x.estudiante == s)
  }

  /** The average of the student's present grades; None when none of their projects
      is graded. */
  function StudentAvg(rows: seq<ProjectRow>, s: UserId): (r: Option<real>)
    ensures r.None? <==> forall x :: x in rows && x.estudiante == s ==> x.calificacion.None?
    ensures r.Some? && (forall x :: x in rows ==> ValidGrade(x.calificacion)) ==> 0.0 <= r.value <= 5.0
  {
    var own := OwnRows(rows, s);
    MeanGradeBounds(own);
    Mean(GradesOf(own))
  }

  /** A cache entry: the value and the instant it expires. */
  datatype CacheEntry = CacheEntry(value: real, expires: nat)

  /** `cache.get(key)`: the value of an entry that has not expired yet. */
  function CachedValue(entries: map<UserId, CacheEntry>, k: UserId, now: nat): (r: Option<real>)
    ensures r.Some? <==> k in entries && now < entries[k].expires
    ensures r.Some? ==> r.value == entries[k].value
  {
    if k in entries && now < entries[k].expires then Some(entries[k].value) else None
  }

  /** Every live entry holds the student's current average. */
  ghost predicate Coherent(entries: map<UserId, CacheEntry>, rows: seq<ProjectRow>, now: nat)
  {
    forall k :: CachedValue(entries, k, now).Some? ==> StudentAvg(rows, k) == CachedValue(entries, k, now)
  }

  /** The cache of student averages, keyed by student (`student_avg_<id>`). */
  class AvgCache {
    var entries: map<UserId, CacheEntry>

    constructor ()
      ensures entries == map[]
    {
      entries := map[];
    }

    /** `get_student_avg`: with `useCache`, a live cached value is returned as it is;
        otherwise the average is computed, and stored for `CACHE_TIMEOUT` seconds only
        when caching is on and the average exists. Without `useCache` the cache is
        neither read nor written. */
    method GetStudentAvg(rows: seq<ProjectRow>, student: User, useCache: bool, now: nat)
      returns (avg: Option<real>)
      modifies this
      ensures useCache && CachedValue(old(entries), student.id, now).Some? ==>
                avg == CachedValue(old(entries), student.id, now) && entries == old(entries)
      ensures !(useCache && CachedValue(old(entries), student.id, now).Some?) ==>
                avg == StudentAvg(rows, student.id)
      ensures useCache && CachedValue(old(entries), student.id, now).None? && avg.Some? ==>
                entries == old(entries)[student.id := CacheEntry(avg.value, now + CACHE_TIMEOUT)]
      ensures !useCache || avg.None? ==> entries == old(entries)
      ensures Coherent(old(entries), rows, now) ==>
                Coherent(entries, rows, now) && avg == StudentAvg(rows, student.id)
    {
      if useCache {
        var cached := CachedValue(entries, student.id, now);
        if cached.Some? {
          return cached;
        }
      }
      avg := StudentAvg(rows, student.id);
      if useCache && avg.Some? {
        entries := entries[student.id := CacheEntry(avg.value, now + CACHE_TIMEOUT)];
      }
    }

    /** `invalidate_student_cache`: remove that student's entry and no other. */
    method InvalidateStudentCache(student: User)
      modifies this
      ensures entries == old(entries) - {student.id}
    {
      entries := entries - {student.id};
    }
  }

  /** Two tables give a student the same average when they hold the same projects of
      that student in the same order. */
  lemma {:induction false} StudentAvgDependsOnOwnRows(rows: seq<ProjectRow>, rows': seq<ProjectRow>, k: UserId)
    requires OwnRows(rows, k) == OwnRows(rows', k)
    ensures StudentAvg(rows, k) == StudentAvg(rows', k)
  {
  }

  /** A change to the projects of student `s` alone leaves the cache coherent once `s`'s
      entry is invalidated; entries also stay coherent as time passes. */
  lemma InvalidateRestoresCoherence(entries: map<UserId, CacheEntry>, rows: seq<ProjectRow>,
                                    rows': seq<ProjectRow>, s: UserId, now: nat, later: nat)
    requires Coherent(entries, rows, now) && now <= later
    requires forall k :: k != s ==> OwnRows(rows, k) == OwnRows(rows', k)
    ensures Coherent(entries - {s}, rows', later)
  {
    forall k | CachedValue(entries - {s}, k, later).Some?
      ensures StudentAvg(rows', k) == CachedValue(entries - {s}, k, later)
    {
      assert CachedValue(entries, k, now).Some?;
      StudentAvgDependsOnOwnRows(rows, rows', k);
    }
  }

  /** Without the invalidation, a regraded student's cached average goes stale: a
      4.80 average cached at time 0, the project regraded to 3.00, and a read at time
      10 still answers 4.80. */
  lemma StaleAverageWithoutInvalidation()
    ensures var row := ProjectRow(1, "P", "D", 7, "doc.pdf", APROBADO, 0, Some(0), Some(480));
            var entries := map[7 := CacheEntry(4.8, CACHE_TIMEOUT)];
            && Coherent(entries, [row], 0)
            && CachedValue(entries, 7, 10) == Some(4.8)
            && StudentAvg([row.(calificacion := Some(300))], 7) == Some(3.0)
  {
    var row := ProjectRow(1, "P", "D", 7, "doc.pdf", APROBADO, 0, Some(0), Some(480));
    SingleGradeAvg(row);
    SingleGradeAvg(row.(calificacion := Some(300)));
  }

  /** The average of a student with one graded project is that grade. */
  lemma SingleGradeAvg(row: ProjectRow)
    requires row.calificacion.Some?
    ensures StudentAvg([row], row.estudiante) == Some((row.calificacion.value as real) / 100.0)
  {
    assert OwnRows([row], row.estudiante) == [row];
    assert GradesOf([row]) == [row.calificacion.value] by {
      assert [row][..0] == [];
    }
    var g := row.calificacion.value;
    assert Sum([g]) == g by { assert [g][..0] == []; }
  }

  /** The aggregates of `get_student_metrics`. */
  datatype Metrics = Metrics(totalProyectos: nat, proyectosCalificados: nat, proyectosAprobados: nat,
                             proyectosEnRevision: nat, proyectosEnviados: nat, promedio: Option<real>)

  /** Over well-formed rows a student's projects split into the three states. */
  lemma OwnStatesPartition(rows: seq<ProjectRow>, s: UserId)
    ensures (forall x :: x in rows ==> x.WellFormed()) ==>
              Count(OwnRows(rows, s), (x: ProjectRow) => x.estado == APROBADO)
              + Count(OwnRows(rows, s), (x: ProjectRow) => x.estado == REVISION)
              + Count(OwnRows(rows, s), (x: ProjectRow) => x.estado == ENVIADO) == |OwnRows(rows, s)|
  {
    if forall x :: x in rows ==> x.WellFormed() {
      CountPartition3(OwnRows(rows, s), (x: ProjectRow) => x.estado == APROBADO,
                      (x: ProjectRow) => x.estado == REVISION, (x: ProjectRow) => x.estado == ENVIADO);
    }
  }

  /** `get_student_metrics`: counts over the student's projects and the average of
      their present grades. */
  function GetStudentMetrics(rows: seq<ProjectRow>, s: UserId): (m: Metrics)
    ensures m.totalProyectos == |OwnRows(rows, s)|
    ensures m.proyectosCalificados <= m.totalProyectos && m.proyectosAprobados <= m.totalProyectos
    ensures m.proyectosEnRevision <= m.totalProyectos && m.proyectosEnviados <= m.totalProyectos
    ensures m.proyectosCalificados == |GradesOf(OwnRows(rows, s))|
    ensures m.proyectosCalificados == Count(OwnRows(rows, s), (x: ProjectRow) => x.calificacion.Some?)
    ensures m.proyectosAprobados == Count(OwnRows(rows, s), (x: ProjectRow) => x.estado == APROBADO)
    ensures m.proyectosEnRevision == Count(OwnRows(rows, s), (x: ProjectRow) => x.estado == REVISION)
    ensures m.proyectosEnviados == Count(OwnRows(rows, s), (x: ProjectRow) => x.estado == ENVIADO)
    ensures (forall x :: x in rows ==> x.WellFormed()) ==>
              m.proyectosAprobados + m.proyectosEnRevision + m.proyectosEnviados == m.totalProyectos
    ensures m.promedio == StudentAvg(rows, s)
    ensures m.promedio.None? <==> m.proyectosCalificados == 0
  {
    var own := OwnRows(rows, s);
    GradesOfCount(own);
    OwnStatesPartition(rows, s);
    Metrics(|own|,
            Count(own, (x: ProjectRow) => x.calificacion.Some?),
            Count(own, (x: ProjectRow) => x.estado == APROBADO),
            Count(own, (x: ProjectRow) => x.estado == REVISION),
            Count(own, (x: ProjectRow) => x.estado == ENVIADO),
            StudentAvg(rows, s))
  }

  /** One user of `get_all_students_avg`, with its annotations. */
  datatype StudentRank = StudentRank(user: User, promedio: Option<real>, totalProyectos: nat,
                                     totalCalificados: nat, proyectosAprobados: nat)

  /** The annotations of one user. */
  function RankOf(rows: seq<ProjectRow>, u: User): (r: StudentRank)
    ensures r.user == u && r.promedio == StudentAvg(rows, u.id)
    ensures r.totalProyectos == |OwnRows(rows, u.id)| && r.totalCalificados <= r.totalProyectos
    ensures r.promedio.None? <==> r.totalCalificados == 0
    ensures r.totalCalificados == Count(OwnRows(rows, u.id), (x: ProjectRow) => x.calificacion.Some?)
    ensures r.proyectosAprobados == Count(OwnRows(rows, u.id), (x: ProjectRow) => x.estado == APROBADO)
  {
    var m := GetStudentMetrics(rows, u.id);
    StudentRank(u, m.promedio, m.totalProyectos, m.proyectosCalificados, m.proyectosAprobados)
  }

  /** `order_by('-promedio')`: higher averages first and students without an average
      last; equal averages by ascending user id. */
  function RanksBefore(a: StudentRank, b: StudentRank): bool
  {
    if a.promedio == b.promedio then a.user.id <= b.user.id
    else a.promedio.Some? && (b.promedio.None? || a.promedio.value > b.promedio.value)
  }

  lemma RanksBeforeIsTotalPreorder()
    ensures TotalPreorder(RanksBefore)
  {
  }

  /** Who `get_all_students_avg` keeps: members of the Estudiante group with at least
      one project, graded or not. */
  predicate Ranked(rows: seq<ProjectRow>, u: User)
  {
    IsStudent(u) && |OwnRows(rows, u.id)| > 0
  }

  /** The kept users of `users`, in their order, each with its annotations. */
  function RankAll(users: seq<User>, rows: seq<ProjectRow>): (r: seq<StudentRank>)
    ensures forall x :: x in r ==> x.user in users && Ranked(rows, x.user) && x == RankOf(rows, x.user)
    ensures forall u :: u in users && Ranked(rows, u) ==> RankOf(rows, u) in r
    decreases |users|
  {
    if users == [] then []
    else
      var rest := RankAll(users[1..], rows);
      assert forall u :: u in users[1..] ==> u in users;
      assert forall u :: u in users ==> u == users[0] || u in users[1..];
      (if Ranked(rows, users[0]) then [RankOf(rows, users[0])] else []) + rest
  }

  /** `get_all_students_avg`: one entry per kept user, with their annotations, ranked. */
  function AllStudentsAvg(users: seq<User>, rows: seq<ProjectRow>): (r: seq<StudentRank>)
    ensures forall x :: x in r ==> x.user in users && Ranked(rows, x.user) && x == RankOf(rows, x.user)
    ensures forall u :: u in users && Ranked(rows, u) ==> RankOf(rows, u) in r
    ensures SortedBy(r, RanksBefore)
  {
    var ranks := RankAll(users, rows);
    RanksBeforeIsTotalPreorder();
    SortSorted(ranks, RanksBefore);
    SortMembers(ranks, RanksBefore);
    Sort(ranks, RanksBefore)
  }

  /** When the users are distinct accounts (distinct ids, as in the user table), the
      ranking lists each kept student exactly once. */
  lemma OneEntryPerStudent(users: seq<User>, rows: seq<ProjectRow>)
    requires DistinctIds(users)
    ensures var r := AllStudentsAvg(users, rows);
            forall i, j :: 0 <= i < j < |r| ==> r[i].user.id != r[j].user.id
  {
    var ranks := RankAll(users, rows);
    var r := AllStudentsAvg(users, rows);
    RankAllDistinct(users, rows);
    NoDuplicatesMultiset(ranks);
    assert multiset(r) == multiset(ranks);
    NoDuplicatesMultiset(r);
    forall i, j | 0 <= i < j < |r|
      ensures r[i].user.id != r[j].user.id
    {
      assert r[i] in r && r[j] in r;
      SameIdSameUser(users, r[i].user, r[j].user);
    }
  }

  /** Distinct accounts give distinct entries, in the user table's order. */
  lemma {:induction false} RankAllDistinct(users: seq<User>, rows: seq<ProjectRow>)
    requires DistinctIds(users)
    ensures NoDuplicates(RankAll(users, rows))
    decreases |users|
  {
    if users != [] {
      var rest := RankAll(users[1..], rows);
      assert DistinctIds(users[1..]);
      RankAllDistinct(users[1..], rows);
      forall x | x in rest
        ensures x.user != users[0]
      {
        var k :| 0 <= k < |users[1..]| && users[1..][k] == x.user;
        assert users[k + 1].id != users[0].id;
      }
    }
  }

  /** Distinct ids: no two users of the sequence share a key. */
  predicate DistinctIds(users: seq<User>)
  {
    forall i, j :: 0 <= i < j < |users| ==> users[i].id != users[j].id
  }

  /** Among distinct accounts, the key identifies the user. */
  lemma SameIdSameUser(users: seq<User>, u: User, w: User)
    requires DistinctIds(users) && u in users && w in users
    ensures u.id == w.id ==> u == w
  {
    var a :| 0 <= a < |users| && users[a] == u;
    var b :| 0 <= b < |users| && users[b] == w;
    assert u.id == w.id ==> a == b;
  }

  /** Every ranked student with an average comes before every ranked student without
      one, and a higher average before a lower one. */
  lemma RankingOrder(users: seq<User>, rows: seq<ProjectRow>, i: nat, j: nat)
    requires i < j < |AllStudentsAvg(users, rows)|
    ensures var r := AllStudentsAvg(users, rows);
            && (r[j].promedio.Some? ==> r[i].promedio.Some? && r[i].promedio.value >= r[j].promedio.value)
  {
    var r := AllStudentsAvg(users, rows);
    assert RanksBefore(r[i], r[j]);
  }

  /** The average column of the metrics export: two decimals (rounded half to even),
      or 'Sin calificar' when the average is falsy (absent, or zero). */
  function AvgCell(promedio: Option<real>): (r: string)
    ensures r == "Sin calificar" <==> promedio.None? || promedio.value == 0.0
    ensures promedio.Some? && promedio.value != 0.0 ==>
              && ParseFixed2(r).Some?
              && (ParseFixed2(r).value as real) - 0.5 <= promedio.value * 100.0 <= (ParseFixed2(r).value as real) + 0.5
  {
    if promedio.Some? && promedio.value != 0.0 then
      var h := RoundHalfEven(promedio.value * 100.0);
      Fixed2RoundTrip(h);
      assert "Sin calificar"[10] != '.';
      Fixed2(h)
    else "Sin calificar"
  }

  const STUDENT_CSV_HEADER: seq<string> :=
    ["Estudiante", "Email", "Total Proyectos", "Proyectos Calificados", "Proyectos Aprobados", "Promedio"]

  /** The email column: the address, or 'Sin email' when it is empty. */
  function EmailCell(email: string): (r: string)
    ensures email != "" ==> r == email
    ensures email == "" ==> r == "Sin email"
    ensures r != ""
  {
    if email != "" then email else "Sin email"
  }

  /** One data row of the metrics export. */
  function StudentCsvRow(s: StudentRank): (r: seq<Cell>)
    ensures |r| == |STUDENT_CSV_HEADER|
  {
    [Text(DisplayName(s.user)),
     Text(EmailCell(s.user.email)),
     Int(s.totalProyectos),
     Int(s.totalCalificados),
     Int(s.proyectosAprobados),
     Text(AvgCell(s.promedio))]
  }

  /** A data row of the metrics export has one cell per header, with the e-mail and
      average columns as above. */
  lemma StudentCsvRowCells(s: StudentRank)
    ensures var r := StudentCsvRow(s);
            && |r| == |STUDENT_CSV_HEADER|
            && r[1] == Text(EmailCell(s.user.email))
            && r[5] == Text(AvgCell(s.promedio))
  {
  }

  /** The rows written for a list of students: the header, then one row each. */
  method WriteStudentRows(list: seq<StudentRank>) returns (doc: CsvDoc)
    ensures doc.prefix == BOM
    ensures |doc.rows| == |list| + 1
    ensures doc.rows[0] == HeaderCells(STUDENT_CSV_HEADER)
    ensures forall i :: 0 <= i < |list| ==> doc.rows[i + 1] == StudentCsvRow(list[i])
  {
    var out := [HeaderCells(STUDENT_CSV_HEADER)];
    for i := 0 to |list|
      invariant |out| == i + 1 && out[0] == HeaderCells(STUDENT_CSV_HEADER)
      invariant forall k :: 0 <= k < i ==> out[k + 1] == StudentCsvRow(list[k])
    {
      out := out + [StudentCsvRow(list[i])];
    }
    doc := CsvDoc(BOM, out);
  }

  /** `export_student_metrics_to_csv`: the BOM, the 6-column header, then one row per
      student of the given list, or of `get_all_students_avg` when none is given. */
  method ExportStudentMetricsToCsv(students: Option<seq<StudentRank>>, users: seq<User>,
                                   rows: seq<ProjectRow>) returns (doc: CsvDoc)
    ensures var list := if students.Some? then students.value else AllStudentsAvg(users, rows);
            && doc.prefix == BOM
            && |doc.rows| == |list| + 1
            && doc.rows[0] == HeaderCells(STUDENT_CSV_HEADER)
            && forall i :: 0 <= i < |list| ==> doc.rows[i + 1] == StudentCsvRow(list[i])
  {
    var list := if students.Some? then students.value else AllStudentsAvg(users, rows);
    doc := WriteStudentRows(list);
  }
}
