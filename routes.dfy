/**
 * The request handlers of the blog over an in-memory store of the two
 * tables. Every handler that names a blog by id looks it up first (a
 * missing id changes nothing and reports NotFound), then checks that the
 * signed-in user owns it (anyone else changes nothing and is reported
 * Unauthorized), and only then reads or changes the row. The signed-in
 * user is passed in as `current`.
 */
module Routes {
  import opened Wrappers
  import opened Models
  import opened Forms
  import opened Pagination

  /** What a handler reports. */
  datatype Outcome<T> =
    | Ok(value: T)
    | Invalid(errors: seq<FieldError>)
    | NotFound
    | Unauthorized
    | Conflict

  /**
   * The status toggle: a post that is not published becomes published, a
   * published one becomes unpublished. It never yields draft.
   */
  function Toggle(s: BlogStatus): (t: BlogStatus)
    ensures t != Draft
    ensures (t == Published) <==> (s != Published)
  {
    match s
    case Draft => Published
    case Unpublished => Published
    case Published => Unpublished
  }

  /** Two toggles from published come back to published; from draft they end at unpublished. */
  lemma ToggleTwice(s: BlogStatus)
    ensures s == Published ==> Toggle(Toggle(s)) == Published
    ensures s == Draft ==> Toggle(s) == Published && Toggle(Toggle(s)) == Unpublished
    ensures Toggle(Toggle(Toggle(s))) == Toggle(s)
  {
  }

  /** The two listing filters. */
  datatype Filter = PublishedOnly | OwnedBy(owner: int)

  predicate Matches(f: Filter, b: Blog) {
    match f
    case PublishedOnly => b.status == Published
    case OwnedBy(u) => b.createdBy == u
  }

  /** The stored blogs matching `f` whose ids lie in 1..hi, by id from the highest down. */
  function Listing(blogs: map<int, Blog>, f: Filter, hi: int): (r: seq<Blog>)
    requires forall k :: k in blogs ==> blogs[k].id == k
    decreases hi
    ensures forall i :: 0 <= i < |r| ==>
      1 <= r[i].id <= hi && r[i].id in blogs && blogs[r[i].id] == r[i] && Matches(f, r[i])
    ensures forall i, j :: 0 <= i < j < |r| ==> r[i].id > r[j].id
    ensures forall k :: 1 <= k <= hi && k in blogs && Matches(f, blogs[k]) ==> blogs[k] in r
  {
    if hi < 1 then []
    else (if hi in blogs && Matches(f, blogs[hi]) then [blogs[hi]] else []) + Listing(blogs, f, hi - 1)
  }

  /** Two tables that agree on the ids 1..hi list the same blogs up to hi. */
  lemma {:induction false} ListingAgrees(b1: map<int, Blog>, b2: map<int, Blog>, f: Filter, hi: int)
    requires forall k :: k in b1 ==> b1[k].id == k
    requires forall k :: k in b2 ==> b2[k].id == k
    requires forall k :: 1 <= k <= hi ==> (k in b1 <==> k in b2)
    requires forall k :: 1 <= k <= hi && k in b1 ==> b1[k] == b2[k]
    ensures Listing(b1, f, hi) == Listing(b2, f, hi)
    decreases hi
  {
    if hi >= 1 {
      ListingAgrees(b1, b2, f, hi - 1);
    }
  }

  /** Adding a blog under an id above all others puts it (if it matches) ahead of the old listing. */
  lemma ListingAfterInsert(blogs: map<int, Blog>, b: Blog, f: Filter)
    requires b.id >= 1
    requires forall k :: k in blogs ==> blogs[k].id == k && k < b.id
    ensures Matches(f, b) ==> Listing(blogs[b.id := b], f, b.id) == [b] + Listing(blogs, f, b.id - 1)
    ensures !Matches(f, b) ==> Listing(blogs[b.id := b], f, b.id) == Listing(blogs, f, b.id - 1)
  {
    ListingAgrees(blogs[b.id := b], blogs, f, b.id - 1);
    assert [] + Listing(blogs, f, b.id - 1) == Listing(blogs, f, b.id - 1);
  }

  /** The id of a user with the given email among the ids 1..hi, if there is one. */
  function UserWithEmail(users: map<int, User>, email: string, hi: int): (r: Option<int>)
    decreases hi
    ensures r.Some? ==> 1 <= r.value <= hi && r.value in users && users[r.value].emailId == email
    ensures r.None? ==> forall k :: 1 <= k <= hi && k in users ==> users[k].emailId != email
  {
    if hi < 1 then None
    else if hi in users && users[hi].emailId == email then Some(hi)
    else UserWithEmail(users, email, hi - 1)
  }

  /**
   * The persisted users and blogs tables with the next id each will hand
   * out, and the one-way password hash the site is configured with.
   */
  class Store {
    var users: map<int, User>
    var blogs: map<int, Blog>
    var nextUserId: int
    var nextBlogId: int
    const hash: string -> string

    /**
     * Table constraints: ids are positive keys below the next id, emails
     * are unique, every blog's owner is a stored user, and the form-bounded
     * columns fit their declared lengths.
     */
    ghost predicate Valid()
      reads this
    {
      && nextUserId >= 1 && nextBlogId >= 1
      && (forall k :: k in users ==>
            1 <= k < nextUserId && users[k].id == k && |users[k].fullname| <= FullnameLength)
      && (forall j, k :: j in users && k in users && users[j].emailId == users[k].emailId ==> j == k)
      && (forall k :: k in blogs ==>
            1 <= k < nextBlogId && blogs[k].id == k && blogs[k].createdBy in users
            && BlogFitsColumns(blogs[k]))
    }

    constructor (hash: string -> string)
      ensures Valid()
      ensures users == map[] && blogs == map[] && nextUserId == 1 && nextBlogId == 1
      ensures this.hash == hash
    {
      users, blogs := map[], map[];
      nextUserId, nextBlogId := 1, 1;
      this.hash := hash;
    }

    /** Whether a stored user has this email and the hash of this password. */
    ghost predicate HasCredentials(email: string, password: string)
      reads this
    {
      exists k :: k in users && users[k].emailId == email && users[k].password == hash(password)
    }

    /** Whether some user has registered this email. */
    function EmailTaken(email: string): (t: bool)
      reads this
      requires Valid()
      ensures t <==> exists k :: k in users && users[k].emailId == email
    {
      UserWithEmail(users, email, nextUserId - 1).Some?
    }

    /**
     * Sign-in: a valid form whose email belongs to a user whose stored hash
     * is the hash of the given password signs that user in. An unknown
     * email and a wrong password are both reported as Unauthorized.
     */
    function SignIn(f: SigninForm, isEmail: string -> bool): (r: Outcome<int>)
      reads this
      requires Valid()
      ensures r.Ok? || r.Invalid? || r.Unauthorized?
      ensures r.Invalid? <==> ValidateSignin(f, isEmail) != []
      ensures r.Invalid? ==> r.errors == ValidateSignin(f, isEmail)
      ensures r.Ok? ==>
        r.value in users && users[r.value].emailId == f.emailId && users[r.value].password == hash(f.password)
      ensures ValidateSignin(f, isEmail) == [] && HasCredentials(f.emailId, f.password) ==> r.Ok?
    {
      var errs := ValidateSignin(f, isEmail);
      if errs != [] then Invalid(errs)
      else
        match UserWithEmail(users, f.emailId, nextUserId - 1)
        case Some(k) => if users[k].password == hash(f.password) then Ok(k) else Unauthorized
        case None => Unauthorized
    }

    /**
     * Sign-up: an invalid form is refused with its errors, an email already
     * registered is a Conflict, and otherwise one user is added whose stored
     * password is the hash of the submitted one.
     */
    method Signup(f: SignupForm, isEmail: string -> bool) returns (r: Outcome<int>)
      requires Valid()
      modifies this
      ensures Valid()
      ensures blogs == old(blogs) && nextBlogId == old(nextBlogId)
      ensures r.Ok? || r.Invalid? || r.Conflict?
      ensures r.Invalid? <==> ValidateSignup(f, isEmail) != []
      ensures r.Invalid? ==> r.errors == ValidateSignup(f, isEmail)
      ensures r.Conflict? <==>
        ValidateSignup(f, isEmail) == [] && exists k :: k in old(users) && old(users)[k].emailId == f.emailId
      ensures !r.Ok? ==> users == old(users) && nextUserId == old(nextUserId)
      ensures r.Ok? ==>
        && r.value == old(nextUserId) && r.value !in old(users)
        && nextUserId == old(nextUserId) + 1
        && users == old(users)[r.value := NewUser(r.value, f.fullname, f.emailId, hash(f.password), None, None)]
      ensures r.Ok? && (forall p :: hash(p) != p) ==> users[r.value].password != f.password
      ensures r.Ok? ==> SignIn(SigninForm(f.emailId, f.password), isEmail) == Ok(r.value)
    {
      var errs := ValidateSignup(f, isEmail);
      if errs != [] {
        return Invalid(errs);
      }
      if EmailTaken(f.emailId) {
        return Conflict;
      }
      var id := nextUserId;
      users := users[id := NewUser(id, f.fullname, f.emailId, hash(f.password), None, None)];
      nextUserId := nextUserId + 1;
      SignupValid(f, isEmail);
      SigninValid(SigninForm(f.emailId, f.password), isEmail);
      r := Ok(id);
    }

    /** A post by id, whoever asks and whatever its status. */
    function ReadBlog(id: int): (r: Outcome<Blog>)
      reads this
      ensures r.Ok? || r.NotFound?
      ensures r.Ok? <==> id in blogs
      ensures r.Ok? ==> r.value == blogs[id]
    {
      if id in blogs then Ok(blogs[id]) else NotFound
    }

    /** A post by id, for its owner only. */
    function ViewBlog(current: int, id: int): (r: Outcome<Blog>)
      reads this
      ensures r.Ok? || r.NotFound? || r.Unauthorized?
      ensures r.NotFound? <==> id !in blogs
      ensures r.Unauthorized? <==> id in blogs && blogs[id].createdBy != current
      ensures r.Ok? ==> r == ReadBlog(id) && r.value.createdBy == current
    {
      if id !in blogs then NotFound
      else if blogs[id].createdBy != current then Unauthorized
      else Ok(blogs[id])
    }

    /** All stored posts matching `f`, newest (highest id) first. */
    function Feed(f: Filter): (r: seq<Blog>)
      reads this
      requires Valid()
      ensures forall b :: b in r <==> b.id in blogs && blogs[b.id] == b && Matches(f, b)
      ensures forall i, j :: 0 <= i < j < |r| ==> r[i].id > r[j].id
    {
      var r := Listing(blogs, f, nextBlogId - 1);
      assert forall b :: b in r ==> b.id in blogs && blogs[b.id] == b && Matches(f, b) by {
        forall b | b in r ensures b.id in blogs && blogs[b.id] == b && Matches(f, b) {
          var i :| 0 <= i < |r| && r[i] == b;
        }
      }
      r
    }

    /** The home page: one page of published posts, newest first. */
    function Index(page: int): (r: seq<Blog>)
      reads this
      requires Valid()
      ensures |r| == PageSize(|Feed(PublishedOnly)|, page)
      ensures forall i :: 0 <= i < |r| ==> r[i].status == Published && r[i].id in blogs && blogs[r[i].id] == r[i]
      ensures forall i, j :: 0 <= i < j < |r| ==> r[i].id > r[j].id
      ensures forall i :: 0 <= i < |r| ==>
        0 <= (page - 1) * PerPage + i < |Feed(PublishedOnly)| && r[i] == Feed(PublishedOnly)[(page - 1) * PerPage + i]
    {
      var feed := Feed(PublishedOnly);
      var r := Paginate(feed, page);
      assert forall i :: 0 <= i < |r| ==> r[i] in feed;
      r
    }

    /** The "my blogs" page: one page of the current user's posts, newest first. */
    function MyBlogs(current: int, page: int): (r: seq<Blog>)
      reads this
      requires Valid()
      ensures |r| == PageSize(|Feed(OwnedBy(current))|, page)
      ensures forall i :: 0 <= i < |r| ==> r[i].createdBy == current && r[i].id in blogs && blogs[r[i].id] == r[i]
      ensures forall i, j :: 0 <= i < j < |r| ==> r[i].id > r[j].id
      ensures forall i :: 0 <= i < |r| ==>
        0 <= (page - 1) * PerPage + i < |Feed(OwnedBy(current))| && r[i] == Feed(OwnedBy(current))[(page - 1) * PerPage + i]
    {
      var feed := Feed(OwnedBy(current));
      var r := Paginate(feed, page);
      assert forall i :: 0 <= i < |r| ==> r[i] in feed;
      r
    }

    /** Every published post is shown on some page of the home page. */
    lemma PublishedPostShown(k: int)
      requires Valid() && k in blogs && blogs[k].status == Published
      ensures exists page :: blogs[k] in Index(page)
    {
      var feed := Feed(PublishedOnly);
      var i :| 0 <= i < |feed| && feed[i] == blogs[k];
      PageOf(feed, i);
      assert Index(i / PerPage + 1)[i % PerPage] == blogs[k];
    }

    /** Every post of the current user is shown on some page of their blog list. */
    lemma OwnPostShown(current: int, k: int)
      requires Valid() && k in blogs && blogs[k].createdBy == current
      ensures exists page :: blogs[k] in MyBlogs(current, page)
    {
      var feed := Feed(OwnedBy(current));
      var i :| 0 <= i < |feed| && feed[i] == blogs[k];
      PageOf(feed, i);
      assert MyBlogs(current, i / PerPage + 1)[i % PerPage] == blogs[k];
    }

    /** With seven published posts the home page shows three, three, one, then none. */
    lemma SevenPublished()
      requires Valid() && |Feed(PublishedOnly)| == 7
      ensures Index(1) == Feed(PublishedOnly)[0..3]
      ensures Index(3) == Feed(PublishedOnly)[6..7]
      ensures Index(4) == []
    {
      var feed := Feed(PublishedOnly);
      assert Index(1) == Paginate(feed, 1);
      assert Index(3) == Paginate(feed, 3);
      SevenItems(feed);
    }

    /** Storing a new post under the next id. */
    method AddBlog(post: Blog)
      requires Valid() && post.id == nextBlogId && post.createdBy in users && BlogFitsColumns(post)
      modifies this
      ensures Valid()
      ensures users == old(users) && nextUserId == old(nextUserId)
      ensures blogs == old(blogs)[post.id := post] && nextBlogId == old(nextBlogId) + 1
      ensures forall k :: k in old(blogs) ==> k < post.id
    {
      blogs := blogs[post.id := post];
      nextBlogId := nextBlogId + 1;
    }

    /**
     * A post stored under the next id heads every feed it matches (its
     * owner's, and the public one when published); every other feed, such as
     * another user's, stays as it was.
     */
    twostate lemma NewPostLeadsFeeds(post: Blog, f: Filter)
      requires old(Valid()) && Valid()
      requires post.id == old(nextBlogId) && nextBlogId == post.id + 1
      requires blogs == old(blogs)[post.id := post]
      ensures Matches(f, post) ==> Feed(f) == [post] + old(Feed(f))
      ensures !Matches(f, post) ==> Feed(f) == old(Feed(f))
    {
      ListingAfterInsert(old(blogs), post, f);
    }

    /**
     * Creating a post: a valid form adds one blog owned by the current user
     * under a fresh id above every existing one (so, by NewPostLeadsFeeds,
     * it heads the owner's feed).
     */
    method CreateBlog(current: int, f: BlogForm) returns (r: Outcome<int>)
      requires Valid() && current in users
      modifies this
      ensures Valid()
      ensures users == old(users) && nextUserId == old(nextUserId)
      ensures r.Ok? || r.Invalid?
      ensures r.Invalid? <==> ValidateBlog(CreateData(f)) != []
      ensures r.Invalid? ==>
        r.errors == ValidateBlog(CreateData(f)) && blogs == old(blogs) && nextBlogId == old(nextBlogId)
      ensures r.Ok? ==>
        && r.value == old(nextBlogId) && nextBlogId == old(nextBlogId) + 1
        && (forall k :: k in old(blogs) ==> k < r.value)
      ensures r.Ok? ==> (var d := CreateData(f);
        blogs == old(blogs)[r.value := NewBlog(r.value, d.title, d.body, Some(FormStatus(d)), None, current)])
    {
      var d := CreateData(f);
      var errs := ValidateBlog(d);
      if errs != [] {
        return Invalid(errs);
      }
      BlogFormValid(d);
      var post := NewBlog(nextBlogId, d.title, d.body, Some(FormStatus(d)), None, current);
      AddBlog(post);
      r := Ok(post.id);
    }

    /** Toggling a post's status, for its owner only. */
    method ToggleStatus(current: int, id: int) returns (r: Outcome<BlogStatus>)
      requires Valid()
      modifies this
      ensures Valid()
      ensures users == old(users) && nextUserId == old(nextUserId) && nextBlogId == old(nextBlogId)
      ensures r.Ok? || r.NotFound? || r.Unauthorized?
      ensures r.NotFound? <==> id !in old(blogs)
      ensures r.Unauthorized? <==> id in old(blogs) && old(blogs)[id].createdBy != current
      ensures !r.Ok? ==> blogs == old(blogs)
      ensures r.Ok? ==>
        && r.value == Toggle(old(blogs)[id].status)
        && blogs == old(blogs)[id := old(blogs)[id].(status := r.value)]
    {
      if id !in blogs {
        return NotFound;
      }
      if current != blogs[id].createdBy {
        return Unauthorized;
      }
      var post := blogs[id];
      var next := Toggle(post.status);
      blogs := blogs[id := post.(status := next)];
      r := Ok(next);
    }

    /** Overwriting a stored post in place, keeping its owner. */
    method UpdateBlog(post: Blog)
      requires Valid() && post.id in blogs && post.createdBy == blogs[post.id].createdBy
      requires BlogFitsColumns(post)
      modifies this
      ensures Valid()
      ensures users == old(users) && nextUserId == old(nextUserId) && nextBlogId == old(nextBlogId)
      ensures blogs == old(blogs)[post.id := post]
    {
      blogs := blogs[post.id := post];
    }

    /**
     * Editing a post, for its owner only: a valid form overwrites title, body
     * and status; id, owner and the active flag stay.
     */
    method EditBlog(current: int, id: int, f: BlogForm) returns (r: Outcome<Blog>)
      requires Valid()
      modifies this
      ensures Valid()
      ensures users == old(users) && nextUserId == old(nextUserId) && nextBlogId == old(nextBlogId)
      ensures r.Ok? || r.NotFound? || r.Unauthorized? || r.Invalid?
      ensures r.NotFound? <==> id !in old(blogs)
      ensures r.Unauthorized? <==> id in old(blogs) && old(blogs)[id].createdBy != current
      ensures r.Invalid? <==>
        id in old(blogs) && old(blogs)[id].createdBy == current && ValidateBlog(EditData(f, old(blogs)[id])) != []
      ensures r.Invalid? ==> r.errors == ValidateBlog(EditData(f, old(blogs)[id]))
      ensures id in old(blogs) && old(blogs)[id].createdBy == current && f.status.None? ==> r.Invalid?
      ensures !r.Ok? ==> blogs == old(blogs)
      ensures r.Ok? ==> (var d := EditData(f, old(blogs)[id]);
        r.value == Blog(id, d.title, d.body, FormStatus(d), old(blogs)[id].isActive, old(blogs)[id].createdBy))
      ensures r.Ok? ==> blogs == old(blogs)[id := r.value]
    {
      if id !in blogs {
        return NotFound;
      }
      if current != blogs[id].createdBy {
        return Unauthorized;
      }
      var d := EditData(f, blogs[id]);
      var errs := ValidateBlog(d);
      assert f.status.None? ==> errs != [] by {
        if f.status.None? { EditNeedsStatus(f, blogs[id]); }
      }
      if errs != [] {
        return Invalid(errs);
      }
      var post := blogs[id].(title := d.title, body := d.body, status := FormStatus(d));
      assert BlogFitsColumns(post) by { BlogFormValid(d); }
      UpdateBlog(post);
      r := Ok(post);
    }

    /** Deleting a post, for its owner only: exactly that row goes. */
    method DeleteBlog(current: int, id: int) returns (r: Outcome<int>)
      requires Valid()
      modifies this
      ensures Valid()
      ensures users == old(users) && nextUserId == old(nextUserId) && nextBlogId == old(nextBlogId)
      ensures r.Ok? || r.NotFound? || r.Unauthorized?
      ensures r.NotFound? <==> id !in old(blogs)
      ensures r.Unauthorized? <==> id in old(blogs) && old(blogs)[id].createdBy != current
      ensures !r.Ok? ==> blogs == old(blogs)
      ensures r.Ok? ==> r.value == id && blogs == old(blogs) - {id}
      ensures r.Ok? ==> ReadBlog(id) == NotFound && ViewBlog(current, id) == NotFound
    {
      if id !in blogs {
        return NotFound;
      }
      if current != blogs[id].createdBy {
        return Unauthorized;
      }
      blogs := blogs - {id};
      r := Ok(id);
    }
  }
}
