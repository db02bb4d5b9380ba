/** The session token: the claims `registerUser`, `loginUser` and
    `googleCallBack` sign (Controllers/authController.js), and the way
    `protect` (Middlewares/authMiddleware.js) takes it out of the
    `Authorization` header. Signing and verifying are not modelled: they
    are parameters of the members that use them. */
module Token {
  import opened Base
  import opened Joi
  import opened AuthModel

  /** `expiresIn: "7d"`, in seconds. */
  const TokenLifetime: nat := 7 * 24 * 60 * 60

  /** The payload `jwt.sign({id, email, role}, secret, {expiresIn: "7d"})`
      produces at time `now` (seconds): the three claims at the top level,
      plus `iat` and `exp`. */
  function Claims(a: Account, now: nat): (c: Json)
    ensures c.JObj? && "id" in c.fields && c.fields["id"] == JOid(a.id)
    ensures "user" !in c.fields
    ensures "exp" in c.fields && c.fields["exp"] == JNum(now + TokenLifetime)
  {
    JObj(map["id" := JOid(a.id), "email" := JStr(a.email), "role" := JStr(a.role.Name()),
             "iat" := JNum(now), "exp" := JNum(now + TokenLifetime)])
  }

  const BearerPrefix := "Bearer "

  /** `header.split(" ")[1]`: the text between the first and the second
      space (or the end). `None` stands for `undefined`, a header with no
      space. */
  function SecondPiece(header: string): (r: Option<string>)
    ensures r.Some? ==> ' ' !in r.value
  {
    var first := IndexOf(header, ' ');
    if first == |header| then None
    else
      var rest := header[first + 1..];
      Some(rest[..IndexOf(rest, ' ')])
  }

  /** Lines 10-17 of `protect`: a token only behind the `Bearer ` prefix. */
  function BearerToken(header: Option<string>): (r: Option<string>)
    ensures r.Some? ==> header.Some? && StartsWith(header.value, BearerPrefix)
  {
    if header.Some? && StartsWith(header.value, BearerPrefix) then SecondPiece(header.value) else None
  }

  /** A header `Bearer <token>` gives back the token, whatever follows a
      further space. */
  lemma BearerRoundTrip(token: string, tail: string)
    requires ' ' !in token && (tail == [] || tail[0] == ' ')
    ensures BearerToken(Some(BearerPrefix + token + tail)) == Some(token)
  {
    var h := BearerPrefix + token + tail;
    assert h[..|BearerPrefix|] == BearerPrefix;
    assert h == "Bearer" + h[6..];
    IndexOfAfter("Bearer", h[6..]);
    var rest := h[7..];
    assert rest == token + tail;
    IndexOfAfter(token, tail);
    assert rest[..|token|] == token;
  }

  lemma {:induction false} IndexOfAfter(s: string, tail: string)
    requires ' ' !in s && (tail == [] || tail[0] == ' ')
    ensures IndexOf(s + tail, ' ') == |s|
  {
    if s != [] {
      assert (s + tail)[1..] == s[1..] + tail;
      IndexOfAfter(s[1..], tail);
    }
  }
}
