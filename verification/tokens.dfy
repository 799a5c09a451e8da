/**
 * Refresh tokens and the one list operation the handlers apply to a user's
 * token list: dropping every occurrence of a presented token
 * (`refreshToken.filter(rt => rt !== token)` in controllers/users.js).
 */
module Tokens {
  import opened Options

  /** A signed refresh token, compared by its text. */
  type Token = string

  /** True when the request carries a usable `jwt` cookie: JavaScript's
      `cookies?.jwt` is falsy both when the cookie is absent and when it is empty. */
  predicate HasJwt(cookie: Option<Token>)
  {
    cookie.Some? && cookie.value != ""
  }

  /** `s` with every occurrence of `t` removed, the remaining tokens in their order. */
  function Without(s: seq<Token>, t: Token): (r: seq<Token>)
    ensures t !in r
    ensures forall x :: x in r <==> x in s && x != t
    ensures multiset(r) == multiset(s)[t := 0]
    ensures |r| == |s| - multiset(s)[t]
  {
    if |s| == 0 then []
    else
      assert s == [s[0]] + s[1..];
      if s[0] == t then Without(s[1..], t) else [s[0]] + Without(s[1..], t)
  }

  /** Filtering distributes over concatenation: the kept tokens of a prefix
      come before the kept tokens of the suffix, so the order is preserved. */
  lemma {:induction false} WithoutConcat(a: seq<Token>, b: seq<Token>, t: Token)
    ensures Without(a + b, t) == Without(a, t) + Without(b, t)
    decreases |a|
  {
    if |a| == 0 {
      assert a + b == b;
    } else {
      assert (a + b)[1..] == a[1..] + b;
      WithoutConcat(a[1..], b, t);
    }
  }

  /** A list that does not hold `t` is left as it is. */
  lemma {:induction false} WithoutAbsent(s: seq<Token>, t: Token)
    requires t !in s
    ensures Without(s, t) == s
    decreases |s|
  {
    if |s| > 0 {
      assert s == [s[0]] + s[1..];
      WithoutAbsent(s[1..], t);
    }
  }

  /** Removing the same token twice is the same as removing it once. */
  lemma WithoutIdempotent(s: seq<Token>, t: Token)
    ensures Without(Without(s, t), t) == Without(s, t)
  {
  }
}
