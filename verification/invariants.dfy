/**
 * The two invariants of the user collection: emails are unique, and each
 * refresh token is held by at most one user. Every handler keeps them,
 * provided the refresh token it signs is held by nobody yet, and no handler
 * makes any token held other than the one it signed.
 */
module Invariants {
  import opened Options
  import opened Tokens
  import opened Users
  import opened Handlers
  import opened Server

  /** Every token held after the step was held before it or is `newToken`. */
  ghost predicate MintsAtMost(before: Store, after: Store, newToken: Token)
  {
    forall t :: Held(after, t) ==> Held(before, t) || t == newToken
  }

  /** Changing one user's token list to a selection of its own tokens plus
      an unheld token keeps the invariant. */
  lemma TokenUpdateKeepsInv(before: Store, after: Store, id: UserId, newToken: Token)
    requires Inv(before)
    requires TokensOnlyChanged(before, after, id)
    requires !Held(before, newToken)
    requires forall t :: t in after[id].tokens ==> t in before[id].tokens || t == newToken
    ensures Inv(after)
    ensures MintsAtMost(before, after, newToken)
  {
  }

  /** Appending a user with a new email whose tokens are at most one unheld
      token keeps the invariant. */
  lemma AppendKeepsInv(before: Store, after: Store, user: User, newToken: Token)
    requires Inv(before)
    requires Appended(before, after, user)
    requires !EmailTaken(before, user.email)
    requires !Held(before, newToken)
    requires forall t :: t in user.tokens ==> t == newToken
    ensures Inv(after)
    ensures MintsAtMost(before, after, newToken)
  {
  }

  /** Changing one user's token list to a selection of its own tokens keeps
      the invariant and makes no token newly held. */
  lemma ShrinkKeepsInv(before: Store, after: Store, id: UserId)
    requires Inv(before)
    requires TokensOnlyChanged(before, after, id)
    requires forall t :: t in after[id].tokens ==> t in before[id].tokens
    ensures Inv(after)
    ensures forall t :: Held(after, t) ==> Held(before, t)
  {
  }

  lemma RegisterKeepsInv(store: Store, name: string, email: string, password: string, avatar: string, issued: Issued)
    requires Inv(store)
    requires !Held(store, issued.refresh)
    ensures Inv(Register(store, name, email, password, avatar, issued).store)
    ensures MintsAtMost(store, Register(store, name, email, password, avatar, issued).store, issued.refresh)
  {
    var r := Register(store, name, email, password, avatar, issued);
    if r.reply.Created? {
      AppendKeepsInv(store, r.store, NewPasswordUser(name, email, password, avatar, issued.refresh), issued.refresh);
    }
  }

  lemma LoginKeepsInv(store: Store, email: string, password: string, cookie: Option<Token>, o: Oracles, issued: Issued)
    requires Inv(store)
    requires !Held(store, issued.refresh)
    ensures Inv(Login(store, email, password, cookie, o, issued).store)
    ensures MintsAtMost(store, Login(store, email, password, cookie, o, issued).store, issued.refresh)
  {
    var r := Login(store, email, password, cookie, o, issued);
    if r.reply.Profile? {
      TokenUpdateKeepsInv(store, r.store, r.reply.id, issued.refresh);
    }
  }

  lemma GoogleLoginKeepsInv(store: Store, email: string, name: string, avatar: string, cookie: Option<Token>, issued: Issued)
    requires Inv(store)
    requires !Held(store, issued.refresh)
    ensures Inv(GoogleLogin(store, email, name, avatar, cookie, issued).store)
    ensures MintsAtMost(store, GoogleLogin(store, email, name, avatar, cookie, issued).store, issued.refresh)
  {
    var r := GoogleLogin(store, email, name, avatar, cookie, issued);
    if r.reply.Profile? {
      if EmailTaken(store, email) {
        TokenUpdateKeepsInv(store, r.store, r.reply.id, issued.refresh);
      } else {
        AppendKeepsInv(store, r.store, User(name, email, "", avatar, Google, [issued.refresh]), issued.refresh);
      }
    }
  }

  lemma LogoutKeepsInv(store: Store, cookie: Option<Token>)
    requires Inv(store)
    ensures Inv(Logout(store, cookie).store)
    ensures forall t :: Held(Logout(store, cookie).store, t) ==> Held(store, t)
  {
    var r := Logout(store, cookie);
    if r.reply.LoggedOut? {
      ShrinkKeepsInv(store, r.store, FindByToken(store, cookie.value).value);
    }
  }

  lemma RefreshKeepsInv(store: Store, cookie: Option<Token>, o: Oracles, issued: Issued)
    requires Inv(store)
    requires !Held(store, issued.refresh)
    ensures Inv(Refresh(store, cookie, o, issued).store)
    ensures MintsAtMost(store, Refresh(store, cookie, o, issued).store, issued.refresh)
  {
    var r := Refresh(store, cookie, o, issued);
    if HasJwt(cookie) {
      var t := cookie.value;
      match FindByToken(store, t)
      case None =>
        if o.verify(t).Some? && o.verify(t).value < |store| {
          ShrinkKeepsInv(store, r.store, o.verify(t).value);
        }
      case Some(id) =>
        if o.verify(t).None? {
          ShrinkKeepsInv(store, r.store, id);
        } else if o.verify(t) == Some(id) {
          TokenUpdateKeepsInv(store, r.store, id, issued.refresh);
        }
    }
  }

  /** Whatever the request, the invariant survives and only the signed
      refresh token can become newly held. */
  lemma HandleKeepsInv(store: Store, request: Request, o: Oracles, issued: Issued)
    requires Inv(store)
    requires !Held(store, issued.refresh)
    ensures Inv(Handle(store, request, o, issued).store)
    ensures MintsAtMost(store, Handle(store, request, o, issued).store, issued.refresh)
  {
    match request
    case RegisterRequest(name, email, password, avatar) => RegisterKeepsInv(store, name, email, password, avatar, issued);
    case LoginRequest(email, password, cookie) => LoginKeepsInv(store, email, password, cookie, o, issued);
    case GoogleLoginRequest(email, name, avatar, cookie) => GoogleLoginKeepsInv(store, email, name, avatar, cookie, issued);
    case LogoutRequest(cookie) => LogoutKeepsInv(store, cookie);
    case GetUserRequest(id) =>
    case RefreshRequest(cookie) => RefreshKeepsInv(store, cookie, o, issued);
    case CheckLoginRequest(cookie) =>
  }

  /** Each step signs a refresh token nobody holds at the start and no other
      step signs. */
  ghost predicate SignsNewTokens(store: Store, steps: seq<Step>)
  {
    && (forall k :: 0 <= k < |steps| ==> !Held(store, steps[k].issued.refresh))
    && (forall k, l :: 0 <= k < l < |steps| ==> steps[k].issued.refresh != steps[l].issued.refresh)
  }

  /** A whole run keeps the invariant when every signed refresh token is new. */
  lemma {:induction false} RunKeepsInv(store: Store, steps: seq<Step>)
    requires Inv(store)
    requires SignsNewTokens(store, steps)
    ensures Inv(Run(store, steps))
    decreases |steps|
  {
    if |steps| > 0 {
      var next := Handle(store, steps[0].request, steps[0].oracles, steps[0].issued).store;
      HandleKeepsInv(store, steps[0].request, steps[0].oracles, steps[0].issued);
      forall k | 0 <= k < |steps[1..]|
        ensures !Held(next, steps[1..][k].issued.refresh)
      {
        assert steps[1..][k] == steps[k + 1];
      }
      RunKeepsInv(next, steps[1..]);
    }
  }
}
