# Watchlist request handlers in Dafny

The watchlist application is a small Flask site. It lists movies. A logged-in
administrator can add, change and delete them, log in and out, and change the stored
user's login name. This project models its request handlers. Each handler is a pure
transition over an immutable state with four parts:

- the movie table, a `map<int, Movie>` from row key to title and year;
- the single stored user (display name, login name, password hash);
- whether the current session is logged in;
- the queue of one-shot notices ("flash messages") the next page shows.

Each handler returns the next state and a response. A response is a redirect to the
index, login or settings page, a 404, or a rendered page.

Modules:

- `forms.dfy` (`Forms`): reading a form field, where a missing field is `None`. It also
  holds the handlers' rejection tests as written and the input rule they stand for.
  `ValidMovieInput` is that rule for movies: a non-empty title of at most 60
  characters and a non-empty year of at most 4. `ValidName` is the rule for the new
  login name.
- `views.dfy` (`Views`): the state, the responses, the notice texts and one function per
  handler: `Index`/`Create`, `Settings`, `Edit`, `Delete`, `Login` and `Logout`.
- `routes.dfy` (`Routes`): a `Request` per route and `Handle`, which sends each request
  to its handler. It also defines runs, meaning sequences of states produced by
  handling requests one after another. Lemmas state what holds in every state of a run.
- `scenarios.dfy` (`Scenarios`): the unit tests' fixture and scenarios, restated over
  the model.

Modelling decisions:

- The login guard (`login_required`) is an explicit first branch. If the session is not
  logged in, the handler body does not run, the state is unchanged, and the response is
  a redirect to the login page. The notice the guard itself queues is left out (see
  "Left out"). The index page's create path has its own check, which
  redirects to the index page instead.
- The store assigns a new row's key. `Create` takes that key as a parameter. Its only
  requirement is that the key is not yet in the table.
- The password check is a parameter `check(hash, password)`.
- Form fields are `Option<string>`, because `form.get` returns nothing for a missing
  field. "Falsy" means missing or empty, as Python's `not` treats them.

Behaviour of the handlers worth noting:

- The settings page assigns the new name to the user's `username`, the login name
  (`watchlist/views.py:50`).
- A rejected settings name redirects back to the settings page (`watchlist/views.py:49`).
- The edit path's rejection notice is `Invalid Input`, with no closing period
  (`watchlist/views.py:67`). The create path's notice is `Invalid Input.`
  (`watchlist/views.py:31`).
- A failed login never calls `logout_user` (`watchlist/views.py:93-104`). A session that
  was already logged in stays logged in, so `Login` promises "logged in afterwards iff
  logged in before or the credentials match".
- Logout sits behind `login_required` (`watchlist/views.py:110`). For a session that is
  not logged in it redirects to the login page and changes nothing.

## Model

| member | source | states |
|---|---|---|
| Forms.MovieGuardsReject | watchlist/views.py:30-32 | The create guard (line 30) and the edit guard (line 66) each reject a title and year exactly when they fail `ValidMovieInput`. That rule is: both present and non-empty, title at most 60 characters, year at most 4. |
| Forms.SettingsGuardRejects | watchlist/views.py:47-49 | The settings guard rejects a new name exactly when it is missing, empty or longer than 60 characters. |
| Views.Create | watchlist/views.py:25-37 | A session that is not logged in is redirected to the index and nothing changes. For a logged-in session, the table changes iff the input is valid. Valid input adds exactly the one new key, holding the submitted title and year. The table grows by one, every other row is kept, and `Item Created.` is queued. Invalid input leaves the table alone and queues `Invalid Input.`. Every response redirects to the index. Rows stay valid. |
| Views.Index | watchlist/views.py:22-39 | GET changes nothing and renders every stored movie. POST redirects to the index and can add at most the one new key. The user and the session are untouched. Rows stay valid. |
| Views.Settings | watchlist/views.py:42-54 | Behind the login guard. GET changes nothing and renders the settings page. A valid name becomes the user's login name, queues `Settings updated...` and redirects to the index. An invalid name leaves the user unchanged, queues `Invalid Input.` and redirects to settings. The display name, the password hash, the table and the session never change. |
| Views.Edit | watchlist/views.py:58-74 | Behind the login guard; the guard runs before the lookup. A missing id gives a 404 and changes nothing. GET renders the stored row. POST keeps the key set and every other row. Valid input replaces the row's title and year and queues `Item Changed.`. Invalid input leaves the table alone and queues `Invalid Input`. Rows stay valid. |
| Views.Delete | watchlist/views.py:77-84 | Behind the login guard. A missing id gives a 404 and changes nothing. Otherwise exactly that key is removed, the table shrinks by one, every other row is kept, `Item deleted.` is queued, and the response redirects to the index. |
| Views.Login | watchlist/views.py:87-106 | GET changes nothing. After a POST the session is logged in iff it was already logged in, or both fields are non-empty, the login name equals the stored user's and the password check accepts. A missing field queues `Invalid Input.`. A mismatch queues `Invalid username or password.`. Both failures redirect to login. Success queues `Login Success.` and redirects to the index. The table and the user never change. |
| Views.Logout | watchlist/views.py:109-114 | Behind the login guard. A logged-in session is logged out, `Good Bye.` is queued, and the response redirects to the index. The table and the user never change. |
| Routes.Handle | watchlist/views.py:22-114 | Every route keeps stored rows valid. Apart from a POST of the login form, a session that is not logged in changes nothing; for the notice queue this holds only because the login guard's own notice is not modelled. Only a login form POST logs a session in. Login, logout and settings leave the table alone. Only settings changes the user, and it changes only the login name, never the display name or password hash. |
| Routes.RunKeepsRowsValid | watchlist/views.py:30-37 | In every state of any run, every stored row satisfies the input rule, provided the first state's rows do. Proved by induction over the run. |
| Routes.AnonymousRunIsIdle | watchlist/views.py:25-27 | A session that is not logged in and never posts the login form can send any number of requests, repeated creates and loads of the login page among them. Every state of the run then equals the first. The notice queue is part of that equality only because the login guard's own notice is not modelled (see Left out). |
| Routes.RunKeepsPasswordHash | watchlist/views.py:42-54 | No run changes the stored password hash or the display name. |
| Scenarios.Fixture | test_unittest.py:14-18 | The tests' fixture (user `test`, movie `Test Movie Title`/`2019` under key 1) stores only rows that satisfy the input rule. |
| Scenarios.FixtureRunsKeepRowsValid | test_unittest.py:14-18 | Every state of any run starting from the fixture stores only valid rows. |
| Scenarios.LoggedIn | test_unittest.py:50-53 | The tests' login helper, posting `test`/`123` to the fixture, leaves the session logged in with exactly `Login Success.` queued and the fixture's table unchanged. |
| Scenarios.LoginScenario | test_unittest.py:113-119 | On the fixture, the stored credentials log the session in and redirect to the index. A wrong password leaves the session logged out. |
| Scenarios.CreateAndEditScenario | test_unittest.py:56-93 | One logged-in session, each request applied to the state the previous one left. Creating `New Movie` queues `Item Created.` and stores it under the next key. An empty title, then an empty year, each queue `Invalid Input.` and leave the table unchanged. Editing movie 1 queues `Item Changed.` and replaces its title. An empty title on edit queues `Invalid Input` and leaves the table unchanged. |
| Scenarios.DeleteScenario | test_unittest.py:96-101 | After logging in, deleting movie 1 queues `Item deleted.`. The index page then lists no movie titled `Test Movie Title`. |
| Scenarios.LogoutScenario | test_unittest.py:122-127 | Logging out after logging in queues `Good Bye.` and ends the session. A delete then redirects to the login page. |

## Left out

- Flask routing, `request`, `redirect`, `url_for`, `render_template` and the HTML
  templates. These are framework I/O and presentation; responses are an abstract datatype.
- Routing refusals. A wrong HTTP method (for example GET on delete) and an unmatched
  path are answered by Flask with 405 or 404. The 404 page's handler is in
  `watchlist/errors.py`, which is not part of this model.
- SQLAlchemy sessions and commits. The table is a map and the user a single record.
  `watchlist/models.py` is not part of this model.
- Views.Create: the new row's key is any unused key supplied by the store. The model
  does not fix which one SQLite's row-id rule would pick.
- Views.Index: the listing is the map itself. The row order of `Movie.query.all()` is
  not modelled.
- Views.Login: the stored user always exists. The source dereferences
  `User.query.first()` unchecked (lines 97-98), and with no user row it would fail with a
  server error. That error path is not modelled.
- Password hashing (`generate_password`, `validate_password`). It is a foreign library
  call, modelled as the `check` parameter.
- The login guard's own notice. `watchlist/__init__.py:12-13` sets `login_view` and
  leaves `login_message` at Flask-Login's default, so the guard queues that default
  login notice before it redirects to the login page. Flask-Login is not part of this
  model, so the modelled guard leaves the notice queue unchanged.
- Showing and consuming notices on the next page. Handlers only append.
- `watchlist/__init__.py`: configuration from the environment, `load_user` and
  `inject_user`. These are thin ORM lookups.
- `app.py`: a standalone hello-world application with no logic.
- The module-level `movies` list at `watchlist/views.py:8-19`. It is dead data, shadowed
  inside `index`.
- The CLI commands (`initdb`, `forge`) and their tests, and the test harness setup.
