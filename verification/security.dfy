/**
 * Security consequences of the rotation scheme in controllers/users.js,
 * stated over sequences of handler calls.
 */
module Security {
  import opened Options
  import opened Tokens
  import opened Text
  import opened Users
  import opened Handlers

  /** After a successful login, the presented token is gone from the user's
      list and the new token is held by that user alone. On reuse every
      earlier token of the user is revoked. */
  lemma LoginRotatesOutPresented(store: Store, email: string, password: string, t: Token, o: Oracles, issued: Issued)
    requires Inv(store)
    requires t != ""
    requires !Held(store, issued.refresh)
    requires t != issued.refresh
    ensures
      var r := Login(store, email, password, Some(t), o, issued);
      r.reply.Profile? ==>
        && t !in r.store[r.reply.id].tokens
        && (forall j :: 0 <= j < |r.store| && issued.refresh in r.store[j].tokens ==> j == r.reply.id)
        && (!Held(store, t) ==> r.store[r.reply.id].tokens == [issued.refresh])
  {
  }

  /** Presenting the same refresh token a second time, after it was rotated
      out by a successful refresh, is treated as reuse: it never yields new
      tokens. While the token still verifies, reuse revokes every token of
      its owner; once it has expired, the replay changes nothing. `first`
      and `later` are the verification as it answers at each request. */
  lemma ReplayedRefreshIsReuse(store: Store, id: UserId, t: Token, first: Oracles, later: Oracles, atFirst: Issued, atLater: Issued)
    requires Inv(store)
    requires id < |store| && t in store[id].tokens && t != ""
    requires first.verify(t) == Some(id)
    requires !Held(store, atFirst.refresh)
    ensures
      var r1 := Refresh(store, Some(t), first, atFirst);
      && r1.reply == TokenPair(atFirst.access, t)
      && r1.cookie == Set(atFirst.refresh)
      && !Held(r1.store, t)
    ensures
      var r1 := Refresh(store, Some(t), first, atFirst);
      var r2 := Refresh(r1.store, Some(t), later, atLater);
      && r2.reply == StatusOnly(403)
      && (forall x :: Held(r2.store, x) ==> Held(r1.store, x))
    ensures
      var r1 := Refresh(store, Some(t), first, atFirst);
      var r2 := Refresh(r1.store, Some(t), later, atLater);
      && (later.verify(t) == Some(id) ==> TokensOnlyChanged(r1.store, r2.store, id) && r2.store[id].tokens == [])
      && (later.verify(t).None? ==> r2.store == r1.store)
  {
  }

  /** A held token that fails verification is consumed and nothing is issued. */
  lemma InvalidRefreshIssuesNothing(store: Store, t: Token, o: Oracles, issued: Issued)
    requires Inv(store)
    requires t != ""
    requires o.verify(t).None?
    ensures
      var r := Refresh(store, Some(t), o, issued);
      && r.reply == StatusOnly(403)
      && r.cookie == Cleared
      && !Held(r.store, t)
      && (forall x :: Held(r.store, x) ==> Held(store, x))
  {
  }

  /** Google login never takes over an account registered with a password. */
  lemma GoogleCannotTakeOverPasswordAccount(store: Store, id: UserId, name: string, avatar: string, cookie: Option<Token>, issued: Issued)
    requires UniqueEmails(store)
    requires id < |store| && store[id].accountType == EmailWithPassword
    requires store[id].email != "" && name != "" && avatar != ""
    ensures
      var r := GoogleLogin(store, store[id].email, name, avatar, cookie, issued);
      r == Outcome(store, Failed(400, MsgEmailExists), Untouched)
  {
  }

  /** Register, log in presenting the registration cookie, then log out
      presenting the login cookie: each step rotates the user's single
      session token and logout leaves the user with none. */
  lemma RegisterLoginLogout(
    store: Store, name: string, email: string, password: string, avatar: string,
    o: Oracles, atRegister: Issued, atLogin: Issued)
    requires Inv(store)
    requires name != "" && email != "" && Utf16Length(password) >= MinPasswordLength
    requires !EmailTaken(store, email)
    requires atRegister.refresh != "" && atLogin.refresh != ""
    requires !Held(store, atRegister.refresh) && !Held(store, atLogin.refresh)
    requires atRegister.refresh != atLogin.refresh
    requires o.passwordOk(User(name, email, password, avatar, EmailWithPassword, [atRegister.refresh]), password)
    ensures
      var s1 := Register(store, name, email, password, avatar, atRegister);
      && s1.reply == Created(name, avatar, atRegister.access, email)
      && s1.cookie == Set(atRegister.refresh)
    ensures
      var s1 := Register(store, name, email, password, avatar, atRegister);
      var s2 := Login(s1.store, email, password, Some(atRegister.refresh), o, atLogin);
      && s2.reply == Profile(|store|, name, email, avatar, atLogin.access)
      && s2.cookie == Set(atLogin.refresh)
      && s2.store[|store|].tokens == [atLogin.refresh]
    ensures
      var s1 := Register(store, name, email, password, avatar, atRegister);
      var s2 := Login(s1.store, email, password, Some(atRegister.refresh), o, atLogin);
      var s3 := Logout(s2.store, Some(atLogin.refresh));
      && s3.reply == LoggedOut
      && s3.cookie == Cleared
      && s3.store[|store|].tokens == []
  {
  }
}
