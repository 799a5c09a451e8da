/**
 * The refresh-token rotation step shared by credential login and Google
 * login (controllers/users.js lines 102-120 and 178-196): the presented
 * cookie token is dropped from the user's list, the whole list is discarded
 * when no user holds the presented token (reuse), and a newly signed token
 * is appended.
 */
module Rotation {
  import opened Options
  import opened Tokens
  import opened Users

  /** The three outcomes of rotation for user `id`, over the store as it was
      before the step. */
  ghost predicate Rotated(store: Store, id: UserId, cookie: Option<Token>, newToken: Token, tokens: seq<Token>)
    requires id < |store|
  {
    if !HasJwt(cookie) then tokens == store[id].tokens + [newToken]
    else if Held(store, cookie.value) then tokens == Without(store[id].tokens, cookie.value) + [newToken]
    else tokens == [newToken]
  }

  /** The new token list of user `id` after it authenticated presenting `cookie`. */
  function Rotate(store: Store, id: UserId, cookie: Option<Token>, newToken: Token): (tokens: seq<Token>)
    requires id < |store|
    ensures Rotated(store, id, cookie, newToken, tokens)
    ensures |tokens| > 0 && tokens[|tokens| - 1] == newToken
    ensures forall t :: t in tokens ==> t in store[id].tokens || t == newToken
    ensures HasJwt(cookie) && cookie.value != newToken ==> cookie.value !in tokens
  {
    var kept := if HasJwt(cookie) then Without(store[id].tokens, cookie.value) else store[id].tokens;
    var reused := HasJwt(cookie) && FindByToken(store, cookie.value).None?;
    (if reused then [] else kept) + [newToken]
  }
}
