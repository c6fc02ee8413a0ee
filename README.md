# Blog store model

A Dafny model of a small multi-user blog site. The site keeps two tables:
users and blog posts. A post has one of three statuses: draft, unpublished
or published. Visitors read the published posts on the home page. A
signed-in user creates posts and manages their own: edit, toggle status,
view, delete. Forms are checked by declarative field rules before anything
is stored.

The model has five modules:

- `Wrappers` (`wrappers.dfy`): the `Option` type, used for parse results,
  unset column defaults and form fields missing from a request.
- `Models` (`models.dfy`): the `UserRole` and `BlogStatus` enumerations, the
  `User` and `Blog` rows, their column defaults and declared column lengths.
- `Forms` (`forms.dfy`): the field rules of the signup, signin and blog forms.
  The rules are data (`DataRequired`, `Length(min, max)`, `Email`), and
  `RunChain` runs a field's chain the way the form library does: a failed
  "required" stops the chain, any other failure is recorded and the chain
  goes on.
- `Pagination` (`pagination.dfy`): the fixed three-item page windows.
- `Routes` (`routes.dfy`): the status toggle and the listing and lookup
  queries. It also holds the class `Store`, which has the two tables as maps
  keyed by id plus a next-id counter for each. Each request handler is a
  member of `Store`. The handlers that change the tables (`Signup`,
  `CreateBlog`, `ToggleStatus`, `EditBlog`, `DeleteBlog`) are methods; the
  read-only ones (`SignIn`, `ReadBlog`, `ViewBlog`, `Index`, `MyBlogs`) are
  functions of the store's state. The two listings return a page of posts;
  every other handler returns a tagged `Outcome`: `Ok`, `Invalid` (with the
  field errors), `NotFound`, `Unauthorized` or `Conflict`.

`Store.Valid()` is the table invariant, and every handler preserves it:

- ids are positive keys below the next id;
- emails are unique;
- every post's owner is a stored user;
- full names and titles fit their declared column lengths.

The handlers guard in the same order as the site:

1. A missing id reports `NotFound` and changes nothing.
2. A user who is not the post's owner gets `Unauthorized`, and nothing
   changes.
3. An invalid form reports its field errors, and nothing changes.

Only then does the handler change the tables, and its postcondition gives
the whole new state in terms of the old one.

Abstract parameters:

- The password hash is the store's `hash: string -> string`, fixed when the
  store is built.
- The email format check is an `isEmail: string -> bool` parameter.
- The signed-in user is the `current` parameter.

## Model

| member | source | states |
|---|---|---|
| `Models.StatusValue` | src/models.py:16-19 | defined as the string stored for each status: "draft", "unpublished", "published" |
| `Models.RoleValue` | src/models.py:10-13 | defined as the string stored for each role: "user", "support", "admin" |
| `Models.ParseStatus` | src/models.py:16-19 | a string names a status exactly when it is one of the three stored values, and parsing inverts the stored value |
| `Models.ParseRole` | src/models.py:10-13 | a string names a role exactly when it is "user", "support" or "admin", and parsing inverts the stored value |
| `Models.StatusRoundTrip` | src/models.py:16-19 | every status comes back unchanged from its stored string |
| `Models.RoleRoundTrip` | src/models.py:10-13 | every role comes back unchanged from its stored string |
| `Models.NewUser` | src/models.py:22-31 | a new user row keeps the given id, name, email and password; an unset role defaults to user and an unset active flag to true |
| `Models.NewBlog` | src/models.py:45-61 | a new blog row keeps the given id, title, body and owner; an unset status defaults to draft and an unset active flag to true |
| `Forms.Present` | src/forms.py:10 | defined as "required" holds: some character is not whitespace, so the value is not blank after stripping |
| `Forms.Apply` | src/forms.py:10-13 | one rule passes exactly when its condition holds; only a failed "required" stops the chain, reporting "required", and any other rule reports its own violation |
| `Forms.RunChain` | src/forms.py:9-13 | a rule chain, started from a field's earlier errors, reports nothing exactly when there were none and every rule holds; a failed "required" discards the earlier errors and reports only itself |
| `Forms.ValidateSignup` | src/forms.py:8-13 | the signup errors name only the form's three fields, and each field reports "required" exactly when it is blank |
| `Forms.ValidateSignin` | src/forms.py:18-20 | the signin errors name only email and password, and each reports "required" exactly when it is blank |
| `Forms.ValidateBlog` | src/forms.py:25-34 | the blog form errors name only title, body and status, and each reports "required" exactly when its value is blank |
| `Forms.SignupValid` | src/forms.py:8-13 | signup is valid iff fullname is present and 3 to 120 long, email is present and well formed, and password is present and at least 6 long |
| `Forms.SigninValid` | src/forms.py:18-20 | signin is valid iff email is present and well formed and password is present (no minimum length) |
| `Forms.BlogFormValid` | src/forms.py:25-34 | a blog form's values are valid iff title is present and at most 300 long, body is present, and the status value is one of the three statuses |
| `Forms.StatusErrors` | src/forms.py:28-34 | a blank status reports only "required"; otherwise the status reports "not a valid choice" exactly when its value is none of the choices |
| `Forms.StatusChoices` | src/forms.py:28-33 | one choice per status in declaration order, the first being the default "draft", each value parsing to its status, each label its upper-cased value |
| `Forms.ChoicesAreStatuses` | src/forms.py:31 | a submitted value is among the choices exactly when it names a status |
| `Forms.CreateData` | src/routes.py:94-99 | a form built for a new post takes each submitted field; a missing title or body is empty and a missing status is the default "draft" |
| `Forms.CoercedStatus` | src/routes.py:177 | the select box filled from a stored post holds the enumeration member's string form, which is not blank and is none of the choices |
| `Forms.EditData` | src/routes.py:177-181 | a form built from a stored post takes each submitted field; a missing title or body keeps the post's, and a missing status keeps a value that is none of the choices |
| `Forms.FormStatus` | src/forms.py:28-34 | a valid blog form selects the status its value names |
| `Forms.CreateDefaultsToDraft` | src/forms.py:32 | a new post whose form sends no status is a draft |
| `Forms.EditNeedsStatus` | src/routes.py:177-178 | an edit whose form sends no status is refused with "not a valid choice" on the status field |
| `Forms.FormBoundsFitColumns` | src/forms.py:9-27 | a valid signup's fullname fits the 120-character column and a valid blog's title fits the 300-character column |
| `Pagination.PageSize` | src/routes.py:15-20 | a page holds at most three items, and at least one when it starts inside the listing |
| `Pagination.Paginate` | src/routes.py:15-20 | page p shows, in order, the listing's items from position (p-1)*3 on, three of them or fewer on the last page |
| `Pagination.PageOf` | src/routes.py:15-20 | the item at position i of a listing is shown on page i/3+1 in slot i%3 |
| `Pagination.PagesDisjoint` | src/routes.py:15-20 | no listing position is shown on two pages or in two slots |
| `Pagination.SevenItems` | src/routes.py:15-20 | seven items give pages of three, three and one item, and an empty fourth page |
| `Routes.Store.Valid` | src/models.py:22-61 | defined as the table constraints: ids are positive keys below the next id, emails are unique (line 27), every post's owner is a stored user (line 61), full names fit String(120) (line 26) and titles String(300) (line 49) |
| `Routes.Toggle` | src/routes.py:132-135 | the toggle never yields draft, and its result is published exactly when the old status was not |
| `Routes.ToggleTwice` | src/routes.py:132-135 | two toggles from published return to published; from draft they go to published and then unpublished; after the first toggle the status alternates |
| `Routes.Listing` | src/routes.py:17-19 | a listing holds only stored posts that pass the filter, in strictly descending id order, and holds every such post in range |
| `Routes.UserWithEmail` | src/routes.py:41 | the lookup finds a user with the given email exactly when one exists |
| `Routes.Store.EmailTaken` | src/routes.py:41-42 | an email counts as taken exactly when a stored user has it |
| `Routes.Store.SignIn` | src/routes.py:65-78 | an invalid form reports its errors; a stored email with the hash of the given password signs that user in; an unknown email and a wrong password get the same Unauthorized outcome |
| `Routes.Store.Signup` | src/routes.py:37-60 | an invalid form or an already registered email adds no user; otherwise exactly one user is added with the hashed password, role user and active flag true, and that user can then sign in with the same email and password |
| `Routes.Store.ReadBlog` | src/routes.py:25-29 | a post is returned by id with no owner or status check; a missing id is NotFound |
| `Routes.Store.ViewBlog` | src/routes.py:143-151 | NotFound for a missing id, Unauthorized for a non-owner; otherwise the owner gets the stored post |
| `Routes.Store.Feed` | src/routes.py:116-118 | the feed holds exactly the stored posts that pass the filter, in strictly descending id order |
| `Routes.Store.Index` | src/routes.py:12-22 | page p of the home page holds exactly as many posts as the published feed has for that page, each the published feed's post at position (p-1)*3 and on, so published posts only, newest first, at most three |
| `Routes.Store.MyBlogs` | src/routes.py:110-121 | page p of "my blogs" holds exactly as many posts as the current user's feed has for that page, each that feed's post at position (p-1)*3 and on, so the user's own posts only, newest first, at most three |
| `Routes.Store.PublishedPostShown` | src/routes.py:17-20 | every published post is shown on some page of the home page |
| `Routes.Store.OwnPostShown` | src/routes.py:116-119 | every post of the current user is shown on some page of their blog list |
| `Routes.Store.SevenPublished` | src/routes.py:15-20 | with seven published posts, page 1 shows the three newest, page 3 the oldest, and page 4 nothing |
| `Routes.Store.AddBlog` | src/routes.py:102-103 | storing a post under the next id adds exactly that row, above every existing id, and keeps the table constraints |
| `Routes.Store.NewPostLeadsFeeds` | src/routes.py:96-103 | for every feed filter: a post stored under the next id heads the feed when it matches the filter (its owner's feed always, the public feed when published), and any feed it does not match, such as another user's, is unchanged |
| `Routes.Store.CreateBlog` | src/routes.py:91-107 | an invalid form adds nothing; otherwise exactly one post is added, owned by the current user, under an id above every existing one, with all other posts untouched |
| `Routes.Store.UpdateBlog` | src/routes.py:179-183 | overwriting a stored post keeps its owner, changes only that row, and keeps the table constraints |
| `Routes.Store.ToggleStatus` | src/routes.py:124-140 | a missing id or a non-owner changes nothing; otherwise only that post's status changes, by the toggle rule |
| `Routes.Store.EditBlog` | src/routes.py:169-188 | a missing id, a non-owner or an invalid form changes nothing, and a form that sends no status is always invalid; otherwise only the post's title, body and status are overwritten (a missing title or body keeps the post's), and its id, owner and active flag are kept |
| `Routes.Store.DeleteBlog` | src/routes.py:154-166 | a missing id or a non-owner changes nothing; otherwise exactly that post is removed, and a later read or view of it is NotFound |

## Left out

- HTTP plumbing is outside the model: routing, redirects, the referrer and `next` targets, flash messages and templates. Handlers return an `Outcome` value instead.
- Markdown rendering of the body on the read and view pages is a foreign library. The model returns the stored body.
- Password hashing is an abstract function fixed per store, and the password check is equality with the hash of the input. Salting and bcrypt itself are not modelled. That the stored hash differs from the plain text is proved only when the hash has no fixed point.
- Email well-formedness is an abstract `isEmail` parameter, because the validator hides its rules in a library.
- A field missing from the request holds no value at all in the site. This applies to a new post's title or body and to any signup or signin field. The model reads such a field as the empty string; both fail "required" the same way.
- GET requests that only render a form change nothing, and are not modelled. The handlers model the submitted form.
- Out-of-range pages are modelled as empty pages. The library's 404 for those pages, and the routes' default for a missing or non-integer page parameter, are not modelled.
- Sessions, `login_required`, `load_user`, sign-out and CSRF tokens are framework concerns. The signed-in user is the `current` parameter, and `CreateBlog` requires that this user is stored, which is what the login guard ensures.
- The `created_at` and `updated_at` timestamps come from the database clock, and are not modelled.
- Configuration in src/config.py and table creation in `init_create_table` are wiring, and are not modelled.
- Concurrency and transactions are not modelled. Each handler is one atomic step.
- Ids are unbounded integers handed out by a counter. Like a database sequence, the model never hands out an id twice, even after a delete. With the site's default SQLite database (src/config.py:18) and its plain integer key (src/models.py:48), a new row gets the highest stored id plus one. So after the newest post is deleted, its id is handed out again. There, the new post's id, and what a later read of the deleted id shows, can differ from the model. Integer column width is not modelled.
- The 180-character email and 255-character password column lengths (src/models.py:27-28) are not modelled. The signup form does not bound the email length, and the hash length depends on the hash function.
- The `is_active` flags are given their defaults and never read by the site's own code. The login library reads the user's flag, but nothing ever sets it to false.
