/**
 * The exported handlers of controllers/users.js behind one entry point, and
 * a run of the server over a sequence of requests, each handled atomically.
 */
module Server {
  import opened Options
  import opened Tokens
  import opened Users
  import opened Handlers

  datatype Request =
    | RegisterRequest(name: string, email: string, password: string, avatar: string)
    | LoginRequest(email: string, password: string, cookie: Option<Token>)
    | GoogleLoginRequest(email: string, name: string, avatar: string, cookie: Option<Token>)
    | LogoutRequest(cookie: Option<Token>)
    | GetUserRequest(id: int)
    | RefreshRequest(cookie: Option<Token>)
    | CheckLoginRequest(cookie: Option<Token>)

  /** One request, the tokens signed while handling it, and the password
      check and token verification as they answer at that moment (a token
      may expire between two requests). */
  datatype Step = Step(request: Request, issued: Issued, oracles: Oracles)

  /** No record is deleted and no record changes anything but its token list. */
  ghost predicate Extends(before: Store, after: Store)
  {
    && |before| <= |after|
    && forall i :: 0 <= i < |before| ==> after[i] == before[i].(tokens := after[i].tokens)
  }

  function Handle(store: Store, request: Request, o: Oracles, issued: Issued): (r: Outcome)
    ensures Extends(store, r.store)
    ensures |r.store| <= |store| + 1
  {
    match request
    case RegisterRequest(name, email, password, avatar) => Register(store, name, email, password, avatar, issued)
    case LoginRequest(email, password, cookie) => Login(store, email, password, cookie, o, issued)
    case GoogleLoginRequest(email, name, avatar, cookie) => GoogleLogin(store, email, name, avatar, cookie, issued)
    case LogoutRequest(cookie) => Logout(store, cookie)
    case GetUserRequest(id) => GetUser(store, id)
    case RefreshRequest(cookie) => Refresh(store, cookie, o, issued)
    case CheckLoginRequest(cookie) => CheckLogin(store, cookie, o, issued.access)
  }

  /** The collection after handling `steps` in order. */
  function Run(store: Store, steps: seq<Step>): (r: Store)
    ensures Extends(store, r)
    ensures |r| <= |store| + |steps|
    decreases |steps|
  {
    if |steps| == 0 then store
    else Run(Handle(store, steps[0].request, steps[0].oracles, steps[0].issued).store, steps[1..])
  }
}
