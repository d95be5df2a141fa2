/** The authenticated user as the core sees it: an identity, the display fields it
    renders, and its group memberships ('Estudiante', 'Docente') as roles. */
module Users {
  import opened Text

  type UserId = nat

  /** Membership of the 'Estudiante' group (Student) or the 'Docente' group (Teacher). */
  datatype Role = Student | Teacher

  /** A user may belong to either group, to both, or to neither. */
  datatype User = User(id: UserId, username: string, firstName: string, lastName: string,
                       email: string, roles: set<Role>)

  /** `user.groups.filter(name='Estudiante').exists()` */
  predicate IsStudent(u: User)
  {
    Student in u.roles
  }

  /** `user.groups.filter(name='Docente').exists()` */
  predicate IsTeacher(u: User)
  {
    Teacher in u.roles
  }

  /** `get_full_name()`: first and last name joined by a space, stripped. */
  function FullName(u: User): string
  {
    Strip(u.firstName + " " + u.lastName)
  }

  /** The full name has no surrounding whitespace, and the display name is the full
      name when there is one and the username otherwise. */
  lemma NameProperties(u: User)
    ensures FullName(u) != [] ==> (&& DisplayName(u) == FullName(u)
                                   && !IsSpace(FullName(u)[0]) && !IsSpace(FullName(u)[|FullName(u)| - 1]))
    ensures FullName(u) == [] ==> DisplayName(u) == u.username
  {
    StripProperties(u.firstName + " " + u.lastName);
  }

  /** The full name is empty exactly when both names are blank. */
  lemma FullNameBlank(u: User)
    ensures FullName(u) == [] <==>
              (forall i :: 0 <= i < |u.firstName| ==> IsSpace(u.firstName[i]))
              && (forall i :: 0 <= i < |u.lastName| ==> IsSpace(u.lastName[i]))
  {
    StripProperties(u.firstName + " " + u.lastName);
    JoinedBlank(u.firstName, u.lastName);
  }

  /** `a + " " + b` is all whitespace exactly when `a` and `b` are. */
  lemma JoinedBlank(a: string, b: string)
    ensures (forall i :: 0 <= i < |a + " " + b| ==> IsSpace((a + " " + b)[i])) <==>
              (forall i :: 0 <= i < |a| ==> IsSpace(a[i])) && (forall i :: 0 <= i < |b| ==> IsSpace(b[i]))
  {
    var s := a + " " + b;
    var n := |a|;
    if forall i :: 0 <= i < |s| ==> IsSpace(s[i]) {
      forall i | 0 <= i < n
        ensures IsSpace(a[i])
      {
        assert s[i] == a[i];
      }
      forall j | 0 <= j < |b|
        ensures IsSpace(b[j])
      {
        assert s[n + 1 + j] == b[j];
      }
    }
    if (forall i :: 0 <= i < n ==> IsSpace(a[i])) && (forall i :: 0 <= i < |b| ==> IsSpace(b[i])) {
      forall i | 0 <= i < |s|
        ensures IsSpace(s[i])
      {
        if i < n {
          assert s[i] == a[i];
        } else if i > n {
          assert s[i] == b[i - n - 1];
        }
      }
    }
  }

  /** `get_full_name() or username` */
  function DisplayName(u: User): string
  {
    if |FullName(u)| > 0 then FullName(u) else u.username
  }
}
