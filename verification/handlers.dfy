/**
 * The seven request handlers of controllers/users.js, each one atomic
 * transition from the user collection before the request to the collection
 * after it, together with the reply and the `jwt` cookie directive.
 *
 * The library calls are parameters: `bcrypt.compare` is `passwordOk`,
 * `jwt.verify` (signature and expiry) is `verify`, which yields the user id
 * carried in the token, and every `jwt.sign` is a caller-supplied token in
 * `Issued`.
 */
module Handlers {
  import opened Options
  import opened Tokens
  import opened Text
  import opened Users
  import opened Rotation

  /** The `jwt` cookie header the handler sets; it reaches the client only
      with a reply that is actually sent. */
  datatype Cookie = Untouched | Cleared | Set(token: Token)

  datatype Reply =
    | Created(name: string, avatar: string, accessToken: Token, email: string)
      // 201 after registration
    | Profile(id: UserId, name: string, email: string, avatar: string, accessToken: Token)
      // 200 after a login, a Google login or a successful login check
    | PublicProfile(id: UserId, name: string, email: string, avatar: string)
      // 200 from getUser
    | TokenPair(accessToken: Token, refreshToken: Token)
      // 200 from a successful refresh
    | LoggedOut
      // 200 "Successfully Logged Out"
    | LoginFalse
      // 200 { login: false }
    | Failed(status: nat, message: string)
      // a rejected request: the status set and the error thrown
    | StatusOnly(status: nat)
      // a status set with no body ever sent
    | Silent
      // nothing sent at all
    | Crashed
      // the handler dereferenced a missing value before changing anything

  datatype Outcome = Outcome(store: Store, reply: Reply, cookie: Cookie)

  /** The tokens `jwt.sign` produces for one request. */
  datatype Issued = Issued(access: Token, refresh: Token)

  /** The password check and the token verification the handlers delegate. */
  datatype Oracles = Oracles(passwordOk: (User, string) -> bool, verify: Token -> Option<UserId>)

  const MinPasswordLength: nat := 6

  const MsgFillRequired := "Please fill in all required fields"
  const MsgPasswordShort := "Password must be up to 6 characters"
  const MsgEmailRegistered := "Email has already been registered"
  const MsgAddEmailPassword := "Please add email and password"
  const MsgUserNotFound := "User not found, please signup"
  const MsgInvalidCredentials := "Invalid email or password"
  const MsgGoogleError := "Error"
  const MsgEmailExists := "Email was exits"
  const MsgNoSuchUser := "User Not Found"

  /** A rejected request: nothing stored, no cookie set. */
  function Reject(store: Store, status: nat, message: string): Outcome
  {
    Outcome(store, Failed(status, message), Untouched)
  }

  /** The record `registerUser` creates. */
  function NewPasswordUser(name: string, email: string, password: string, avatar: string, refresh: Token): User
  {
    User(name, email, password, avatar, EmailWithPassword, [refresh])
  }

  /** The record `loginUserWithGoogle` creates for an unknown email. */
  function NewGoogleUser(name: string, email: string, avatar: string): User
  {
    User(name, email, "", avatar, Google, [])
  }

  /** `registerUser`: validation, duplicate-email check, creation with a single refresh token. */
  function Register(store: Store, name: string, email: string, password: string, avatar: string, issued: Issued): (r: Outcome)
    ensures r.reply.Created? <==>
      name != "" && email != "" && password != "" && Utf16Length(password) >= MinPasswordLength && !EmailTaken(store, email)
    ensures !r.reply.Created? ==> r.store == store && r.cookie == Untouched
    ensures name == "" || email == "" || password == "" ==> r.reply == Failed(200, MsgFillRequired)
    ensures name != "" && email != "" && password != "" && Utf16Length(password) < MinPasswordLength ==>
      r.reply == Failed(200, MsgPasswordShort)
    ensures name != "" && email != "" && Utf16Length(password) >= MinPasswordLength && EmailTaken(store, email) ==>
      r.reply == Failed(200, MsgEmailRegistered)
    ensures r.reply.Created? ==>
      && Appended(store, r.store, User(name, email, password, avatar, EmailWithPassword, [issued.refresh]))
      && r.reply == Created(name, avatar, issued.access, email)
      && r.cookie == Set(issued.refresh)
  {
    if name == "" || email == "" || password == "" then Reject(store, 200, MsgFillRequired)
    else if Utf16Length(password) < MinPasswordLength then Reject(store, 200, MsgPasswordShort)
    else if FindByEmail(store, email).Some? then Reject(store, 200, MsgEmailRegistered)
    else
      var user := NewPasswordUser(name, email, password, avatar, issued.refresh);
      Outcome(store + [user], Created(name, avatar, issued.access, email), Set(issued.refresh))
  }

  /** Rotation for an authenticated user `id`, and the profile reply. */
  function SignIn(store: Store, id: UserId, cookie: Option<Token>, issued: Issued): (r: Outcome)
    requires id < |store|
    ensures TokensOnlyChanged(store, r.store, id)
    ensures Rotated(store, id, cookie, issued.refresh, r.store[id].tokens)
    ensures r.reply == Profile(id, store[id].name, store[id].email, store[id].avatar, issued.access)
    ensures r.cookie == Set(issued.refresh)
  {
    var user := store[id];
    var tokens := Rotate(store, id, cookie, issued.refresh);
    Outcome(store[id := user.(tokens := tokens)], Profile(id, user.name, user.email, user.avatar, issued.access), Set(issued.refresh))
  }

  /** `loginUser`: validation, lookup by email, password check, rotation. */
  function Login(store: Store, email: string, password: string, cookie: Option<Token>, o: Oracles, issued: Issued): (r: Outcome)
    ensures r.reply.Profile? <==>
      email != "" && password != "" && exists id: UserId :: FirstWithEmail(store, email, id) && o.passwordOk(store[id], password)
    ensures !r.reply.Profile? ==> r.store == store && r.cookie == Untouched && r.reply.Failed?
    ensures email == "" || password == "" ==> r.reply == Failed(400, MsgAddEmailPassword)
    ensures email != "" && password != "" && !EmailTaken(store, email) ==> r.reply == Failed(200, MsgUserNotFound)
    ensures email != "" && password != "" && EmailTaken(store, email) && !r.reply.Profile? ==>
      r.reply == Failed(400, MsgInvalidCredentials)
    ensures r.reply.Profile? ==>
      var id := r.reply.id;
      && FirstWithEmail(store, email, id)
      && o.passwordOk(store[id], password)
      && TokensOnlyChanged(store, r.store, id)
      && Rotated(store, id, cookie, issued.refresh, r.store[id].tokens)
      && r.reply == Profile(id, store[id].name, email, store[id].avatar, issued.access)
      && r.cookie == Set(issued.refresh)
  {
    if email == "" || password == "" then Reject(store, 400, MsgAddEmailPassword)
    else match FindByEmail(store, email)
      case None => Reject(store, 200, MsgUserNotFound)
      case Some(id) =>
        if o.passwordOk(store[id], password) then SignIn(store, id, cookie, issued)
        else Reject(store, 400, MsgInvalidCredentials)
  }

  /** `loginUserWithGoogle`: validation, create-or-reject by account type, rotation. */
  function GoogleLogin(store: Store, email: string, name: string, avatar: string, cookie: Option<Token>, issued: Issued): (r: Outcome)
    ensures r.reply.Profile? <==>
      email != "" && name != "" && avatar != "" &&
      forall id: UserId :: FirstWithEmail(store, email, id) ==> store[id].accountType != EmailWithPassword
    ensures !r.reply.Profile? ==> r.store == store && r.cookie == Untouched
    ensures email == "" || name == "" || avatar == "" ==> r.reply == Failed(400, MsgGoogleError)
    ensures email != "" && name != "" && avatar != "" && !r.reply.Profile? ==> r.reply == Failed(400, MsgEmailExists)
    ensures r.reply.Profile? && !EmailTaken(store, email) ==>
      && Appended(store, r.store, User(name, email, "", avatar, Google, [issued.refresh]))
      && r.reply == Profile(|store|, name, email, avatar, issued.access)
    ensures r.reply.Profile? && EmailTaken(store, email) ==>
      var id := r.reply.id;
      && FirstWithEmail(store, email, id)
      && store[id].accountType == Google
      && TokensOnlyChanged(store, r.store, id)
      && Rotated(store, id, cookie, issued.refresh, r.store[id].tokens)
      && r.reply == Profile(id, store[id].name, email, store[id].avatar, issued.access)
    ensures r.reply.Profile? ==> r.cookie == Set(issued.refresh)
  {
    if email == "" || name == "" || avatar == "" then Reject(store, 400, MsgGoogleError)
    else match FindByEmail(store, email)
      case None =>
        var created := store + [NewGoogleUser(name, email, avatar)];
        SignIn(created, |store|, cookie, issued)
      case Some(id) =>
        if store[id].accountType == EmailWithPassword then Reject(store, 400, MsgEmailExists)
        else SignIn(store, id, cookie, issued)
  }

  /** `logout`: the owner of the presented token loses every copy of it. */
  function Logout(store: Store, cookie: Option<Token>): (r: Outcome)
    ensures r.reply.LoggedOut? <==> cookie.Some? && Held(store, cookie.value)
    ensures !r.reply.LoggedOut? ==> r == Outcome(store, Crashed, Untouched)
    ensures r.reply.LoggedOut? ==> r.cookie == Cleared
    ensures r.reply.LoggedOut? ==>
      forall id: UserId :: FirstHolder(store, cookie.value, id) ==>
        TokensOnlyChanged(store, r.store, id) && r.store[id].tokens == Without(store[id].tokens, cookie.value)
  {
    if cookie.None? then Outcome(store, Crashed, Untouched)
    else match FindByToken(store, cookie.value)
      case None => Outcome(store, Crashed, Untouched)
      case Some(id) =>
        var user := store[id];
        Outcome(store[id := user.(tokens := Without(user.tokens, cookie.value))], LoggedOut, Cleared)
  }

  /** `getUser`: the public profile of the user with the queried id. */
  function GetUser(store: Store, id: int): (r: Outcome)
    ensures r.store == store && r.cookie == Untouched
    ensures r.reply.PublicProfile? <==> 0 <= id < |store|
    ensures r.reply.PublicProfile? ==>
      r.reply == PublicProfile(id, store[id].name, store[id].email, store[id].avatar)
    ensures !r.reply.PublicProfile? ==> r.reply == Failed(400, MsgNoSuchUser)
  {
    if 0 <= id < |store| then
      Outcome(store, PublicProfile(id, store[id].name, store[id].email, store[id].avatar), Untouched)
    else Reject(store, 400, MsgNoSuchUser)
  }

  /** `handleRefreshToken`: reuse detection, then verification of a held token. */
  function Refresh(store: Store, cookie: Option<Token>, o: Oracles, issued: Issued): (r: Outcome)
    ensures !HasJwt(cookie) ==> r == Outcome(store, StatusOnly(401), Untouched)
    ensures HasJwt(cookie) && !r.reply.TokenPair? ==> r.reply == StatusOnly(403) && r.cookie == Cleared
    // reuse: the token is held by nobody
    ensures HasJwt(cookie) && !Held(store, cookie.value) ==>
      match o.verify(cookie.value)
      case None => r.store == store
      case Some(u) =>
        if u < |store| then TokensOnlyChanged(store, r.store, u) && r.store[u].tokens == []
        else r.store == store
    // the token is held: verification decides
    ensures HasJwt(cookie) ==>
      forall id: UserId :: FirstHolder(store, cookie.value, id) ==>
        match o.verify(cookie.value)
        case None =>
          TokensOnlyChanged(store, r.store, id) && r.store[id].tokens == Without(store[id].tokens, cookie.value)
        case Some(u) =>
          if u != id then r.store == store
          else
            && TokensOnlyChanged(store, r.store, id)
            && r.store[id].tokens == Without(store[id].tokens, cookie.value) + [issued.refresh]
            && r.reply == TokenPair(issued.access, cookie.value)
            && r.cookie == Set(issued.refresh)
    ensures r.reply.TokenPair? <==> HasJwt(cookie) && exists id: UserId :: FirstHolder(store, cookie.value, id) && o.verify(cookie.value) == Some(id)
  {
    if !HasJwt(cookie) then Outcome(store, StatusOnly(401), Untouched)
    else
      var t := cookie.value;
      match FindByToken(store, t)
      case None =>
        (match o.verify(t)
         case None => Outcome(store, StatusOnly(403), Cleared)
         case Some(u) =>
           if u < |store| then Outcome(store[u := store[u].(tokens := [])], StatusOnly(403), Cleared)
           else Outcome(store, StatusOnly(403), Cleared))
      case Some(id) =>
        var pruned := Without(store[id].tokens, t);
        match o.verify(t)
        case None => Outcome(store[id := store[id].(tokens := pruned)], StatusOnly(403), Cleared)
        case Some(u) =>
          if u != id then Outcome(store, StatusOnly(403), Cleared)
          else Outcome(store[id := store[id].(tokens := pruned + [issued.refresh])], TokenPair(issued.access, t), Set(issued.refresh))
  }

  /** `checkLogin`: a read-only check of the presented token. */
  function CheckLogin(store: Store, cookie: Option<Token>, o: Oracles, access: Token): (r: Outcome)
    ensures r.store == store && r.cookie == Untouched
    ensures r.reply == LoginFalse <==> !HasJwt(cookie) || !Held(store, cookie.value)
    ensures r.reply.Profile? <==>
      HasJwt(cookie) && exists id: UserId :: FirstHolder(store, cookie.value, id) && o.verify(cookie.value) == Some(id)
    ensures r.reply.Profile? ==>
      var id := r.reply.id;
      FirstHolder(store, cookie.value, id) && r.reply == Profile(id, store[id].name, store[id].email, store[id].avatar, access)
    ensures r.reply == Crashed <==> HasJwt(cookie) && Held(store, cookie.value) && o.verify(cookie.value).None?
    ensures r.reply == Silent <==>
      HasJwt(cookie) && exists id: UserId :: FirstHolder(store, cookie.value, id) && o.verify(cookie.value).Some? && o.verify(cookie.value).value != id
    ensures r.reply == LoginFalse || r.reply == Silent || r.reply == Crashed || r.reply.Profile?
  {
    if !HasJwt(cookie) then Outcome(store, LoginFalse, Untouched)
    else match FindByToken(store, cookie.value)
      case None => Outcome(store, LoginFalse, Untouched)
      case Some(id) =>
        match o.verify(cookie.value)
        // the verification callback reads `decoded.data` of an undefined `decoded` and throws
        case None => Outcome(store, Crashed, Untouched)
        case Some(u) =>
          if u == id then Outcome(store, Profile(id, store[id].name, store[id].email, store[id].avatar, access), Untouched)
          else Outcome(store, Silent, Untouched)
  }
}
