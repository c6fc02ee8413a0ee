/**
 * The two tables of the blog (users and blogs), their enumerated columns,
 * column defaults and declared column lengths.
 */
module Models {
  import opened Wrappers

  /** Role of a user account; declared but not used for authorization. */
  datatype UserRole = RegularUser | Support | Admin

  /** Publication status of a blog post. */
  datatype BlogStatus = Draft | Unpublished | Published

  /** The members of BlogStatus in declaration order. */
  const AllStatuses: seq<BlogStatus> := [Draft, Unpublished, Published]

  /** Declared column lengths (String(n)) that the forms also bound. */
  const FullnameLength := 120
  const TitleLength := 300

  /** The string stored for a status (the enum member's value). */
  function StatusValue(s: BlogStatus): string {
    match s
    case Draft => "draft"
    case Unpublished => "unpublished"
    case Published => "published"
  }

  /** Converting a stored or submitted string back to a status. */
  function ParseStatus(v: string): (r: Option<BlogStatus>)
    ensures r.Some? ==> StatusValue(r.value) == v
    ensures r.None? ==> forall s: BlogStatus :: StatusValue(s) != v
  {
    if v == "draft" then Some(Draft)
    else if v == "unpublished" then Some(Unpublished)
    else if v == "published" then Some(Published)
    else None
  }

  /** The string stored for a role. */
  function RoleValue(r: UserRole): string {
    match r
    case RegularUser => "user"
    case Support => "support"
    case Admin => "admin"
  }

  function ParseRole(v: string): (r: Option<UserRole>)
    ensures r.Some? ==> RoleValue(r.value) == v
    ensures r.None? ==> forall q: UserRole :: RoleValue(q) != v
  {
    if v == "user" then Some(RegularUser)
    else if v == "support" then Some(Support)
    else if v == "admin" then Some(Admin)
    else None
  }

  /** Each status survives the round trip through its stored string. */
  lemma StatusRoundTrip(s: BlogStatus)
    ensures ParseStatus(StatusValue(s)) == Some(s)
  {
  }

  lemma RoleRoundTrip(r: UserRole)
    ensures ParseRole(RoleValue(r)) == Some(r)
  {
  }

  /** A row of the users table. `password` holds the hash, never the plain text. */
  datatype User = User(id: int, fullname: string, emailId: string, password: string,
                       role: UserRole, isActive: bool)

  /** A row of the blogs table; `createdBy` is the owning user's id. */
  datatype Blog = Blog(id: int, title: string, body: string, status: BlogStatus,
                       isActive: bool, createdBy: int)

  /**
   * A new users row: the columns left unset take their declared defaults
   * (role user, is_active true).
   */
  function NewUser(id: int, fullname: string, emailId: string, password: string,
                   role: Option<UserRole>, isActive: Option<bool>): (u: User)
    ensures u.id == id && u.fullname == fullname && u.emailId == emailId && u.password == password
    ensures role.None? ==> u.role == RegularUser
    ensures role.Some? ==> u.role == role.value
    ensures isActive.None? ==> u.isActive
    ensures isActive.Some? ==> u.isActive == isActive.value
  {
    User(id, fullname, emailId, password, role.GetOr(RegularUser), isActive.GetOr(true))
  }

  /**
   * A new blogs row: the columns left unset take their declared defaults
   * (status draft, is_active true).
   */
  function NewBlog(id: int, title: string, body: string, status: Option<BlogStatus>,
                   isActive: Option<bool>, createdBy: int): (b: Blog)
    ensures b.id == id && b.title == title && b.body == body && b.createdBy == createdBy
    ensures status.None? ==> b.status == Draft
    ensures status.Some? ==> b.status == status.value
    ensures isActive.None? ==> b.isActive
    ensures isActive.Some? ==> b.isActive == isActive.value
  {
    Blog(id, title, body, status.GetOr(Draft), isActive.GetOr(true), createdBy)
  }

  /** A blogs row whose title fits the declared column length (body is Text). */
  predicate BlogFitsColumns(b: Blog) {
    |b.title| <= TitleLength
  }
}
