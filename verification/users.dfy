/**
 * The user collection of controllers/users.js as an immutable value.
 *
 * A user's id is its position in the collection: records are only ever
 * created (appended) and never deleted. `User.findOne(query)` returns the
 * first matching record in collection order.
 */
module Users {
  import opened Options
  import opened Tokens

  /** The `type` field of a user record. */
  datatype AccountType = EmailWithPassword | Google

  datatype User = User(
    name: string,
    email: string,
    password: string,
    avatar: string,
    accountType: AccountType,
    tokens: seq<Token>)

  type UserId = nat

  type Store = seq<User>

  /** The first record at or after `from` that satisfies `matches`. */
  function FindFirst(store: Store, matches: User -> bool, from: nat): (r: Option<UserId>)
    requires from <= |store|
    ensures r.Some? ==> from <= r.value < |store| && matches(store[r.value])
    ensures r.Some? ==> forall j :: from <= j < r.value ==> !matches(store[j])
    ensures r.None? ==> forall j :: from <= j < |store| ==> !matches(store[j])
    decreases |store| - from
  {
    if from == |store| then None
    else if matches(store[from]) then Some(from)
    else FindFirst(store, matches, from + 1)
  }

  /** Some record has this email. */
  ghost predicate EmailTaken(store: Store, email: string)
  {
    exists i :: 0 <= i < |store| && store[i].email == email
  }

  /** Some record holds this refresh token. */
  ghost predicate Held(store: Store, t: Token)
  {
    exists i :: 0 <= i < |store| && t in store[i].tokens
  }

  /** `id` is the record `findOne({ email })` returns. */
  ghost predicate FirstWithEmail(store: Store, email: string, id: UserId)
  {
    && id < |store|
    && store[id].email == email
    && forall j :: 0 <= j < id ==> store[j].email != email
  }

  /** `id` is the record `findOne({ refreshToken: t })` returns. */
  ghost predicate FirstHolder(store: Store, t: Token, id: UserId)
  {
    && id < |store|
    && t in store[id].tokens
    && forall j :: 0 <= j < id ==> t !in store[j].tokens
  }

  /** `User.findOne({ email })`. */
  function FindByEmail(store: Store, email: string): (r: Option<UserId>)
    ensures r.Some? ==> FirstWithEmail(store, email, r.value)
    ensures r.None? <==> !EmailTaken(store, email)
  {
    FindFirst(store, (u: User) => u.email == email, 0)
  }

  /** `User.findOne({ refreshToken: t })`: a record whose token list contains `t`. */
  function FindByToken(store: Store, t: Token): (r: Option<UserId>)
    ensures r.Some? ==> FirstHolder(store, t, r.value)
    ensures r.None? <==> !Held(store, t)
  {
    FindFirst(store, (u: User) => t in u.tokens, 0)
  }

  /** Emails are unique across users. */
  ghost predicate UniqueEmails(store: Store)
  {
    forall i, j :: 0 <= i < |store| && 0 <= j < |store| && store[i].email == store[j].email ==> i == j
  }

  /** Each refresh token is held by at most one user. */
  ghost predicate UniqueTokens(store: Store)
  {
    forall i, j, t :: 0 <= i < |store| && 0 <= j < |store| && t in store[i].tokens && t in store[j].tokens ==> i == j
  }

  /** The invariant every handler keeps. */
  ghost predicate Inv(store: Store)
  {
    UniqueEmails(store) && UniqueTokens(store)
  }

  /** `after` differs from `before` at most in the token list of user `id`. */
  ghost predicate TokensOnlyChanged(before: Store, after: Store, id: UserId)
  {
    && |after| == |before|
    && id < |before|
    && after[id] == before[id].(tokens := after[id].tokens)
    && forall j :: 0 <= j < |before| && j != id ==> after[j] == before[j]
  }

  /** `after` is `before` with one user appended. */
  ghost predicate Appended(before: Store, after: Store, user: User)
  {
    |after| == |before| + 1 && after[..|before|] == before && after[|before|] == user
  }

  /** With unique emails, the record with a given email is the one `findOne` returns. */
  lemma EmailLookupUnique(store: Store, email: string, id: UserId)
    requires UniqueEmails(store)
    requires id < |store| && store[id].email == email
    ensures FirstWithEmail(store, email, id)
    ensures FindByEmail(store, email) == Some(id)
  {
  }

  /** With unique tokens, the holder of a token is the one `findOne` returns. */
  lemma TokenLookupUnique(store: Store, t: Token, id: UserId)
    requires UniqueTokens(store)
    requires id < |store| && t in store[id].tokens
    ensures FirstHolder(store, t, id)
    ensures FindByToken(store, t) == Some(id)
  {
  }
}
