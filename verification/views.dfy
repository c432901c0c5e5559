/** The request handlers of the watchlist application, as pure transitions.

    The application state is the movie table, the single stored user, whether the
    current session is logged in, and the queue of one-shot notices ("flash messages")
    shown on the next page. Every handler takes the state and the request's inputs and
    returns the next state together with the response: a redirect to a named page, a
    404, or a rendered page.
 */
module Views {
  import opened Forms

  datatype Movie = Movie(title: string, year: string)

  /** The stored user. The password is kept only as a hash. */
  datatype User = User(name: string, username: string, passwordHash: string)

  /** Decides whether a password matches a stored hash (the hashing library). */
  type PasswordCheck = (string, string) -> bool

  datatype State = State(
    movies: map<int, Movie>,
    user: User,
    authenticated: bool,
    flashes: seq<string>)

  datatype Method = Get | Post

  /** The pages a redirect can send the browser to. */
  datatype Route = IndexPage | LoginPage | SettingsPage

  /** The pages a handler can render. */
  datatype Page =
    | IndexView(listed: map<int, Movie>)
    | EditView(id: int, movie: Movie)
    | SettingsView
    | LoginView

  datatype Response = Redirect(target: Route) | NotFound | Render(page: Page)

  /** What a handler returns: the next state and the response. */
  datatype Handled = Handled(state: State, response: Response)

  const InvalidInput := "Invalid Input."
  /** The edit path's rejection notice, which has no closing period. */
  const InvalidEditInput := "Invalid Input"
  const ItemCreated := "Item Created."
  const ItemChanged := "Item Changed."
  const ItemDeleted := "Item deleted."
  const SettingsUpdated := "Settings updated..."
  const LoginSuccess := "Login Success."
  const BadCredentials := "Invalid username or password."
  const GoodBye := "Good Bye."

  /** Every stored row satisfies the input rule the handlers enforce. */
  ghost predicate RowsValid(movies: map<int, Movie>)
  {
    forall id :: id in movies ==> ValidMovieInput(Some(movies[id].title), Some(movies[id].year))
  }

  /** `after` holds the rows of `before` other than `id`, each unchanged. */
  ghost predicate OthersKept(before: map<int, Movie>, after: map<int, Movie>, id: int)
  {
    forall k :: k in before && k != id ==> k in after && after[k] == before[k]
  }

  /** The state with one notice appended and nothing else changed. */
  function Notify(s: State, message: string): State
  {
    s.(flashes := s.flashes + [message])
  }

  /** The login guard: a handler that requires a logged-in session sends any other
      session to the login page and runs nothing. */
  function Unauthorized(s: State): Handled
    requires !s.authenticated
  {
    Handled(s, Redirect(LoginPage))
  }

  /** The create path of the index page; `newId` is the unused key the store assigns. */
  function Create(s: State, form: Form, newId: int): (r: Handled)
    requires newId !in s.movies
    // a session that is not logged in is sent back to the index and nothing changes
    ensures !s.authenticated ==> r.state == s && r.response == Redirect(IndexPage)
    ensures s.authenticated ==> r.response == Redirect(IndexPage)
    ensures s.authenticated ==> r.state.user == s.user && r.state.authenticated
    // a logged-in session inserts a row exactly when the input is valid
    ensures s.authenticated ==>
      (r.state.movies != s.movies <==> ValidMovieInput(Field(form, "title"), Field(form, "year")))
    ensures s.authenticated && !ValidMovieInput(Field(form, "title"), Field(form, "year")) ==>
      r.state.movies == s.movies && r.state.flashes == s.flashes + [InvalidInput]
    ensures s.authenticated && ValidMovieInput(Field(form, "title"), Field(form, "year")) ==>
      && r.state.movies.Keys == s.movies.Keys + {newId}
      && |r.state.movies| == |s.movies| + 1
      && r.state.movies[newId] == Movie(form["title"], form["year"])
      && OthersKept(s.movies, r.state.movies, newId)
      && r.state.flashes == s.flashes + [ItemCreated]
    ensures RowsValid(s.movies) ==> RowsValid(r.state.movies)
  {
    if !s.authenticated then
      Handled(s, Redirect(IndexPage))
    else
      var title := Field(form, "title");
      var year := Field(form, "year");
      MovieGuardsReject(title, year);
      if CreateGuard(title, year) then
        Handled(Notify(s, InvalidInput), Redirect(IndexPage))
      else
        var movies' := s.movies[newId := Movie(title.value, year.value)];
        assert |movies'| == |s.movies| + 1 by {
          assert movies'.Keys == s.movies.Keys + {newId};
        }
        Handled(Notify(s.(movies := movies'), ItemCreated), Redirect(IndexPage))
  }

  /** The index page: GET lists every stored movie, POST is the create path. */
  function Index(s: State, verb: Method, form: Form, newId: int): (r: Handled)
    requires newId !in s.movies
    ensures verb == Get ==> r.state == s && r.response == Render(IndexView(s.movies))
    ensures verb == Post ==> r.response == Redirect(IndexPage)
    ensures r.state.user == s.user && r.state.authenticated == s.authenticated
    ensures r.state.movies.Keys <= s.movies.Keys + {newId}
    ensures RowsValid(s.movies) ==> RowsValid(r.state.movies)
  {
    match verb
    case Get => Handled(s, Render(IndexView(s.movies)))
    case Post => Create(s, form, newId)
  }

  /** The settings page: a valid new name replaces the stored user's `username`. */
  function Settings(s: State, verb: Method, form: Form): (r: Handled)
    ensures !s.authenticated ==> r.state == s && r.response == Redirect(LoginPage)
    ensures s.authenticated && verb == Get ==> r.state == s && r.response == Render(SettingsView)
    ensures s.authenticated && verb == Post && ValidName(Field(form, "username")) ==>
      && r.state.user == s.user.(username := form["username"])
      && r.state.flashes == s.flashes + [SettingsUpdated]
      && r.response == Redirect(IndexPage)
    ensures s.authenticated && verb == Post && !ValidName(Field(form, "username")) ==>
      && r.state.user == s.user
      && r.state.flashes == s.flashes + [InvalidInput]
      && r.response == Redirect(SettingsPage)
    // only the user's login name can change; the movies and the session never do
    ensures r.state.user.name == s.user.name && r.state.user.passwordHash == s.user.passwordHash
    ensures r.state.movies == s.movies && r.state.authenticated == s.authenticated
  {
    if !s.authenticated then
      Unauthorized(s)
    else
      match verb
      case Get => Handled(s, Render(SettingsView))
      case Post =>
        var name := Field(form, "username");
        SettingsGuardRejects(name);
        if SettingsGuard(name) then
          Handled(Notify(s, InvalidInput), Redirect(SettingsPage))
        else
          Handled(Notify(s.(user := s.user.(username := name.value)), SettingsUpdated), Redirect(IndexPage))
  }

  /** The edit page of movie `id`. */
  function Edit(s: State, verb: Method, id: int, form: Form): (r: Handled)
    ensures !s.authenticated ==> r.state == s && r.response == Redirect(LoginPage)
    // a logged-in request for a missing id is a 404 and changes nothing
    ensures s.authenticated && id !in s.movies ==> r.state == s && r.response == NotFound
    ensures s.authenticated && id in s.movies && verb == Get ==>
      r.state == s && r.response == Render(EditView(id, s.movies[id]))
    ensures s.authenticated && id in s.movies && verb == Post ==>
      && r.response == Redirect(IndexPage)
      && r.state.movies.Keys == s.movies.Keys
      && OthersKept(s.movies, r.state.movies, id)
      && (ValidMovieInput(Field(form, "title"), Field(form, "year")) ==>
            && r.state.movies[id] == Movie(form["title"], form["year"])
            && r.state.flashes == s.flashes + [ItemChanged])
      && (!ValidMovieInput(Field(form, "title"), Field(form, "year")) ==>
            && r.state.movies == s.movies
            && r.state.flashes == s.flashes + [InvalidEditInput])
    ensures r.state.user == s.user && r.state.authenticated == s.authenticated
    ensures RowsValid(s.movies) ==> RowsValid(r.state.movies)
  {
    if !s.authenticated then
      Unauthorized(s)
    else if id !in s.movies then
      Handled(s, NotFound)
    else
      match verb
      case Get => Handled(s, Render(EditView(id, s.movies[id])))
      case Post =>
        var title := Field(form, "title");
        var year := Field(form, "year");
        MovieGuardsReject(title, year);
        if EditGuard(title, year) then
          Handled(Notify(s, InvalidEditInput), Redirect(IndexPage))
        else
          var movies' := s.movies[id := Movie(title.value, year.value)];
          Handled(Notify(s.(movies := movies'), ItemChanged), Redirect(IndexPage))
  }

  /** Deletion of movie `id` (the route accepts POST only). */
  function Delete(s: State, id: int): (r: Handled)
    ensures !s.authenticated ==> r.state == s && r.response == Redirect(LoginPage)
    ensures s.authenticated && id !in s.movies ==> r.state == s && r.response == NotFound
    ensures s.authenticated && id in s.movies ==>
      && r.state.movies.Keys == s.movies.Keys - {id}
      && |r.state.movies| == |s.movies| - 1
      && OthersKept(s.movies, r.state.movies, id)
      && r.state.flashes == s.flashes + [ItemDeleted]
      && r.response == Redirect(IndexPage)
    ensures r.state.user == s.user && r.state.authenticated == s.authenticated
    ensures RowsValid(s.movies) ==> RowsValid(r.state.movies)
  {
    if !s.authenticated then
      Unauthorized(s)
    else if id !in s.movies then
      Handled(s, NotFound)
    else
      var movies' := s.movies - {id};
      assert |movies'| == |s.movies| - 1 by {
        assert movies'.Keys == s.movies.Keys - {id};
      }
      Handled(Notify(s.(movies := movies'), ItemDeleted), Redirect(IndexPage))
  }

  /** Both login fields were submitted and are non-empty. */
  predicate LoginFieldsGiven(form: Form)
  {
    !Falsy(Field(form, "username")) && !Falsy(Field(form, "password"))
  }

  /** The credentials the login form must carry: both fields filled in, the stored
      user's login name, and a password the stored hash accepts. */
  predicate Credentials(user: User, form: Form, check: PasswordCheck)
  {
    && LoginFieldsGiven(form)
    && form["username"] == user.username
    && check(user.passwordHash, form["password"])
  }

  /** The login page. A failed attempt leaves the session as it was. */
  function Login(s: State, verb: Method, form: Form, check: PasswordCheck): (r: Handled)
    ensures verb == Get ==> r.state == s && r.response == Render(LoginView)
    // a POST logs the session in exactly when the credentials match
    ensures verb == Post ==>
      (r.state.authenticated <==> s.authenticated || Credentials(s.user, form, check))
    ensures verb == Post && Credentials(s.user, form, check) ==>
      r.state.flashes == s.flashes + [LoginSuccess] && r.response == Redirect(IndexPage)
    ensures verb == Post && !LoginFieldsGiven(form) ==>
      r.state.flashes == s.flashes + [InvalidInput] && r.response == Redirect(LoginPage)
    ensures verb == Post && LoginFieldsGiven(form) && !Credentials(s.user, form, check) ==>
      r.state.flashes == s.flashes + [BadCredentials] && r.response == Redirect(LoginPage)
    ensures r.state.movies == s.movies && r.state.user == s.user
  {
    match verb
    case Get => Handled(s, Render(LoginView))
    case Post =>
      var username := Field(form, "username");
      var password := Field(form, "password");
      if Falsy(username) || Falsy(password) then
        Handled(Notify(s, InvalidInput), Redirect(LoginPage))
      else if username.value == s.user.username && check(s.user.passwordHash, password.value) then
        Handled(Notify(s.(authenticated := true), LoginSuccess), Redirect(IndexPage))
      else
        Handled(Notify(s, BadCredentials), Redirect(LoginPage))
  }

  /** Logging out (the route requires a logged-in session). */
  function Logout(s: State): (r: Handled)
    ensures !s.authenticated ==> r.state == s && r.response == Redirect(LoginPage)
    ensures s.authenticated ==>
      && !r.state.authenticated
      && r.state.flashes == s.flashes + [GoodBye]
      && r.response == Redirect(IndexPage)
    ensures !r.state.authenticated
    ensures r.state.movies == s.movies && r.state.user == s.user
  {
    if !s.authenticated then
      Unauthorized(s)
    else
      Handled(Notify(s.(authenticated := false), GoodBye), Redirect(IndexPage))
  }
}
