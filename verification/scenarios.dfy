/** The unit tests' scenarios, stated over the model.

    The fixture stores one user (name and login name `test`, password `123`) and one
    movie (`Test Movie Title`, `2019`) under key 1. The password check is a parameter
    that accepts `123` against the stored hash.
 */
module Scenarios {
  import opened Forms
  import opened Views
  import opened Routes

  /** The fixture, with no session logged in and no notice queued. */
  function Fixture(hash: string): (s: State)
    ensures RowsValid(s.movies)
  {
    State(map[1 := Movie("Test Movie Title", "2019")], User("test", "test", hash), false, [])
  }

  /** Any run that starts from the fixture stores only valid rows, whatever requests
      follow. */
  lemma FixtureRunsKeepRowsValid(hash: string, trace: seq<State>, reqs: seq<Request>, ids: seq<int>,
                                 check: PasswordCheck)
    requires IsRun(trace, reqs, ids, check)
    requires trace[0] == Fixture(hash)
    ensures forall i :: 0 <= i < |trace| ==> RowsValid(trace[i].movies)
  {
    forall i | 0 <= i < |trace|
      ensures RowsValid(trace[i].movies)
    {
      RunKeepsRowsValid(trace, reqs, ids, check, i);
    }
  }

  /** The form the tests' login helper posts. */
  function TestLoginForm(): Form
  {
    map["username" := "test", "password" := "123"]
  }

  /** The fixture after the tests' login helper has run. */
  function LoggedIn(hash: string, check: PasswordCheck): (s: State)
    requires check(hash, "123")
    ensures s.authenticated && s.flashes == [LoginSuccess]
    ensures s.movies == Fixture(hash).movies
  {
    Login(Fixture(hash), Post, TestLoginForm(), check).state
  }

  /** Logging in with the stored credentials succeeds and lands on the index page;
      a wrong password leaves the session logged out. */
  lemma LoginScenario(hash: string, check: PasswordCheck, wrong: string)
    requires check(hash, "123") && wrong != "" && !check(hash, wrong)
    ensures Login(Fixture(hash), Post, TestLoginForm(), check).response == Redirect(IndexPage)
    ensures Login(Fixture(hash), Post, TestLoginForm(), check).state.authenticated
    ensures !Login(Fixture(hash), Post, map["username" := "test", "password" := wrong], check).state.authenticated
  {
  }

  /** The create-and-edit test as one session, each request seeing the state the
      previous one left: creating `New Movie` succeeds under the store's next key; an
      empty title, then an empty year, is rejected and leaves the table as it was;
      editing movie 1 succeeds; editing it again with an empty title is rejected and
      leaves the table as it was. */
  lemma CreateAndEditScenario(hash: string, check: PasswordCheck)
    requires check(hash, "123")
    ensures
      var s0 := LoggedIn(hash, check);
      var s1 := Create(s0, map["title" := "New Movie", "year" := "2019"], 2).state;
      var s2 := Create(s1, map["title" := "", "year" := "2019"], 3).state;
      var s3 := Create(s2, map["title" := "new movie", "year" := ""], 3).state;
      var s4 := Edit(s3, Post, 1, map["title" := "New Movie Title", "year" := "2019"]).state;
      var s5 := Edit(s4, Post, 1, map["title" := "", "year" := "2019"]).state;
      && s1.flashes == [LoginSuccess, ItemCreated]
      && s1.movies == map[1 := Movie("Test Movie Title", "2019"), 2 := Movie("New Movie", "2019")]
      && s2.flashes == s1.flashes + [InvalidInput] && s2.movies == s1.movies
      && s3.flashes == s2.flashes + [InvalidInput] && s3.movies == s2.movies
      && s4.flashes == s3.flashes + [ItemChanged]
      && s4.movies == map[1 := Movie("New Movie Title", "2019"), 2 := Movie("New Movie", "2019")]
      && s5.flashes == s4.flashes + [InvalidEditInput] && s5.movies == s4.movies
  {
  }

  /** Deleting movie 1 queues the deletion notice, and the index page no longer lists a
      movie with its title. */
  lemma DeleteScenario(hash: string, check: PasswordCheck)
    requires check(hash, "123")
    ensures var s := Delete(LoggedIn(hash, check), 1).state;
      && s.flashes == [LoginSuccess, ItemDeleted]
      && var page := Index(s, Get, map[], 1).response;
         page.Render? && page.page.IndexView? &&
         forall k :: k in page.page.listed ==> page.page.listed[k].title != "Test Movie Title"
  {
  }

  /** Logging out after logging in queues the farewell and ends the session; the
      protected pages then send the browser to the login page. */
  lemma LogoutScenario(hash: string, check: PasswordCheck)
    requires check(hash, "123")
    ensures var s := Logout(LoggedIn(hash, check)).state;
      && s.flashes == [LoginSuccess, GoodBye]
      && !s.authenticated
      && Delete(s, 1).response == Redirect(LoginPage)
  {
  }
}
