/** Request dispatch and what holds over any sequence of requests.

    Each route of the application is one `Request` variant; `Handle` sends it to its
    handler. A run is a sequence of states, each produced from the previous one by
    handling the next request, with the store assigning an unused key whenever a
    request inserts a row.
 */
module Routes {
  import opened Forms
  import opened Views

  /** One request, by route; the routes that accept only one method carry none. */
  datatype Request =
    | IndexRequest(verb: Method, form: Form)
    | SettingsRequest(verb: Method, form: Form)
    | EditRequest(verb: Method, id: int, form: Form)
    | DeleteRequest(id: int)
    | LoginRequest(verb: Method, form: Form)
    | LogoutRequest

  /** A POST of the login form, the only request that can log a session in. */
  predicate LoginPost(req: Request)
  {
    req.LoginRequest? && req.verb == Post
  }

  /** Dispatches a request to its handler. `newId` is the key the store assigns if the
      request inserts a row; `check` is the password hash check. */
  function Handle(s: State, req: Request, newId: int, check: PasswordCheck): (r: Handled)
    requires newId !in s.movies
    // no request stores a row the handlers would reject
    ensures RowsValid(s.movies) ==> RowsValid(r.state.movies)
    // apart from a login form post, a session that is not logged in changes nothing (the
    // login guard's own notice is not modelled, so the notice queue stays equal too)
    ensures !s.authenticated && !LoginPost(req) ==> r.state == s
    // only a login form post can log a session in
    ensures r.state.authenticated && !s.authenticated ==> LoginPost(req)
    // the login, logout and settings pages leave the movie table alone
    ensures req.LoginRequest? || req.LogoutRequest? || req.SettingsRequest? ==> r.state.movies == s.movies
    // only the settings page changes the stored user, and never its name or password hash
    ensures !req.SettingsRequest? ==> r.state.user == s.user
    ensures r.state.user.name == s.user.name && r.state.user.passwordHash == s.user.passwordHash
  {
    match req
    case IndexRequest(verb, form) => Index(s, verb, form, newId)
    case SettingsRequest(verb, form) => Settings(s, verb, form)
    case EditRequest(verb, id, form) => Edit(s, verb, id, form)
    case DeleteRequest(id) => Delete(s, id)
    case LoginRequest(verb, form) => Login(s, verb, form, check)
    case LogoutRequest => Logout(s)
  }

  /** `trace` is the sequence of states the requests `reqs` lead through, the store
      assigning `ids[i]` (unused at that point) to the i-th request. */
  ghost predicate IsRun(trace: seq<State>, reqs: seq<Request>, ids: seq<int>, check: PasswordCheck)
  {
    && |trace| == |reqs| + 1
    && |ids| == |reqs|
    && forall i :: 0 <= i < |reqs| ==>
         ids[i] !in trace[i].movies && trace[i + 1] == Handle(trace[i], reqs[i], ids[i], check).state
  }

  /** Every state of a run keeps every stored row valid, given that the first does. */
  lemma {:induction false} RunKeepsRowsValid(trace: seq<State>, reqs: seq<Request>, ids: seq<int>,
                                             check: PasswordCheck, i: nat)
    requires IsRun(trace, reqs, ids, check)
    requires RowsValid(trace[0].movies)
    requires i < |trace|
    ensures RowsValid(trace[i].movies)
    decreases i
  {
    if i > 0 {
      RunKeepsRowsValid(trace, reqs, ids, check, i - 1);
      assert trace[i] == Handle(trace[i - 1], reqs[i - 1], ids[i - 1], check).state;
    }
  }

  /** A session that is not logged in and never posts the login form cannot change
      anything, however many requests it sends (loading the login page included):
      every state of the run is the first.
      The notice queue stays equal because the login guard's own notice is not modelled. */
  lemma {:induction false} AnonymousRunIsIdle(trace: seq<State>, reqs: seq<Request>, ids: seq<int>,
                                              check: PasswordCheck, i: nat)
    requires IsRun(trace, reqs, ids, check)
    requires !trace[0].authenticated
    requires forall j :: 0 <= j < |reqs| ==> !LoginPost(reqs[j])
    requires i < |trace|
    ensures trace[i] == trace[0]
    decreases i
  {
    if i > 0 {
      AnonymousRunIsIdle(trace, reqs, ids, check, i - 1);
      assert trace[i] == Handle(trace[i - 1], reqs[i - 1], ids[i - 1], check).state;
    }
  }

  /** No request of a run replaces the stored password hash or the user's display name. */
  lemma {:induction false} RunKeepsPasswordHash(trace: seq<State>, reqs: seq<Request>, ids: seq<int>,
                                                check: PasswordCheck, i: nat)
    requires IsRun(trace, reqs, ids, check)
    requires i < |trace|
    ensures trace[i].user.passwordHash == trace[0].user.passwordHash
    ensures trace[i].user.name == trace[0].user.name
    decreases i
  {
    if i > 0 {
      RunKeepsPasswordHash(trace, reqs, ids, check, i - 1);
      assert trace[i] == Handle(trace[i - 1], reqs[i - 1], ids[i - 1], check).state;
    }
  }
}
