/** `protect` (Middlewares/authMiddleware.js): the gate in front of every
    route that needs a signed-in caller. It takes the token out of the
    `Authorization` header, verifies it, reads the subject id, looks the
    account up and, only then, writes `req.user` and calls `next`.
    `jwt.verify` is a parameter: `None` stands for a token it rejects
    (bad signature, expired, malformed). */
module AuthMiddleware {
  import opened Base
  import opened Joi
  import opened AuthModel
  import opened Store
  import opened Http
  import opened Token

  /** `req.user` as `protect` sets it. */
  datatype RequestUser = RequestUser(id: Id, email: string, role: Role)

  /** The part of an Express request `protect` reads and writes, and the
      number of times `next` has been called. */
  class Request {
    const authorization: Option<string>
    var user: Option<RequestUser>
    var nextCalls: nat

    constructor (authorization: Option<string>)
      ensures this.authorization == authorization && user.None? && nextCalls == 0
    {
      this.authorization := authorization;
      user := None;
      nextCalls := 0;
    }
  }

  /** What `Auth.findById(v)` makes of the subject value: an id; no match
      (`undefined` and `null` become `{_id: null}`, and a 12-character
      string casts to an id no account has); or a CastError, which the
      `catch` turns into "Invalid token". `JOid` is the hex form of a real
      id, which is how the signed claims carry it. */
  datatype IdCast = AnId(id: Id) | NoMatch | CastFails

  function CastObjectId(v: Json): (r: IdCast)
    ensures r.AnId? <==> v.JOid?
  {
    match v
    case JOid(id) => AnId(id)
    case JNull => NoMatch
    case JStr(s) => if |s| == 12 then NoMatch else CastFails
    case _ => CastFails
  }

  /** Property access in JavaScript: a key of an object, `undefined`
      (`JNull`) otherwise. */
  function Prop(v: Json, key: string): Json {
    if v.JObj? && key in v.fields then v.fields[key] else JNull
  }

  /** `decoded.user.id`, line 25 as written: `None` when `decoded.user` is
      `undefined` or `null`, where reading `.id` throws a TypeError. */
  function SubjectAsWritten(decoded: Json): (r: Option<Json>)
    ensures r.Some? <==> Prop(decoded, "user") != JNull
  {
    var user := Prop(decoded, "user");
    if user == JNull then None else Some(Prop(user, "id"))
  }

  /** `decoded.id`: where the signed claims put the subject. Reading a
      top-level key never throws. */
  function SubjectAtTop(decoded: Json): (r: Option<Json>)
    ensures r.Some?
    ensures decoded.JObj? && "id" in decoded.fields ==> r == Some(decoded.fields["id"])
    ensures !(decoded.JObj? && "id" in decoded.fields) ==> r == Some(JNull)
  {
    Some(Prop(decoded, "id"))
  }

  datatype Outcome = Admit(user: RequestUser) | Refuse(reply: Reply)

  const TokenMissing := Reply(401, Message("Not authorized, token missing"))
  const InvalidToken := Reply(401, Message("Invalid token"))
  const UserNotFound := Reply(401, Message("User not found"))

  /** The decision of the gate, for a way `subject` of reading the subject
      id out of the verified payload. */
  function Gate(accounts: seq<Account>, header: Option<string>, verify: string -> Option<Json>,
                subject: Json -> Option<Json>): (r: Outcome)
    ensures BearerToken(header).None? || BearerToken(header) == Some([]) ==> r == Refuse(TokenMissing)
    ensures BearerToken(header).Some? && BearerToken(header).value != [] && verify(BearerToken(header).value).None? ==>
      r == Refuse(InvalidToken)
    ensures r.Admit? ==> exists i :: 0 <= i < |accounts| && r.user == RequestUser(accounts[i].id, accounts[i].email, accounts[i].role)
    ensures r.Refuse? ==> r.reply.status == 401
  {
    var token := BearerToken(header);
    if token.None? || token.value == [] then Refuse(TokenMissing)
    else match verify(token.value)
      case None => Refuse(InvalidToken)
      case Some(decoded) =>
        match subject(decoded)
        case None => Refuse(InvalidToken)
        case Some(v) =>
          match CastObjectId(v)
          case CastFails => Refuse(InvalidToken)
          case NoMatch => Refuse(UserNotFound)
          case AnId(id) =>
            match AccountById(accounts, id)
            case None => Refuse(UserNotFound)
            case Some(i) => Admit(RequestUser(accounts[i].id, accounts[i].email, accounts[i].role))
  }

  /** `protect`, run with the subject reader `subject`: on success `req.user`
      is the stored account's id, e-mail and role and `next` is called
      once; otherwise the refusal is answered and `req` is untouched. */
  method Guard(db: Db, req: Request, verify: string -> Option<Json>, subject: Json -> Option<Json>)
    returns (refusal: Option<Reply>)
    modifies req
    ensures match Gate(db.accounts, req.authorization, verify, subject)
      case Admit(u) => refusal.None? && req.user == Some(u) && req.nextCalls == old(req.nextCalls) + 1
      case Refuse(r) => refusal == Some(r) && req.user == old(req.user) && req.nextCalls == old(req.nextCalls)
  {
    var token: Option<string> := None;
    if req.authorization.Some? && StartsWith(req.authorization.value, BearerPrefix) {
      token := SecondPiece(req.authorization.value);
    }
    if token.None? || token.value == [] {
      return Some(TokenMissing);
    }
    var decoded := verify(token.value);
    if decoded.None? {
      return Some(InvalidToken);
    }
    var id := subject(decoded.value);
    if id.None? {
      return Some(InvalidToken);
    }
    var cast := CastObjectId(id.value);
    if cast.CastFails? {
      return Some(InvalidToken);
    }
    if cast.NoMatch? {
      return Some(UserNotFound);
    }
    var found := AccountById(db.accounts, cast.id);
    if found.None? {
      return Some(UserNotFound);
    }
    var a := db.accounts[found.value];
    req.user := Some(RequestUser(a.id, a.email, a.role));
    req.nextCalls := req.nextCalls + 1;
    refusal := None;
  }

  /** `protect` as written, reading `decoded.user.id`. */
  method Protect(db: Db, req: Request, verify: string -> Option<Json>) returns (refusal: Option<Reply>)
    modifies req
    ensures match Gate(db.accounts, req.authorization, verify, SubjectAsWritten)
      case Admit(u) => refusal.None? && req.user == Some(u) && req.nextCalls == old(req.nextCalls) + 1
      case Refuse(r) => refusal == Some(r) && req.user == old(req.user) && req.nextCalls == old(req.nextCalls)
  {
    refusal := Guard(db, req, verify, SubjectAsWritten);
  }

  /** `protect` with line 25 reading `decoded.id`, where the claims put the
      subject. */
  method ProtectCorrected(db: Db, req: Request, verify: string -> Option<Json>) returns (refusal: Option<Reply>)
    modifies req
    ensures match Gate(db.accounts, req.authorization, verify, SubjectAtTop)
      case Admit(u) => refusal.None? && req.user == Some(u) && req.nextCalls == old(req.nextCalls) + 1
      case Refuse(r) => refusal == Some(r) && req.user == old(req.user) && req.nextCalls == old(req.nextCalls)
  {
    refusal := Guard(db, req, verify, SubjectAtTop);
  }

  /** A header carrying a token the application signed for account `a`. */
  predicate IssuedFor(header: Option<string>, a: Account, now: nat, sign: Json -> string,
                      verify: string -> Option<Json>) {
    var token := sign(Claims(a, now));
    token != [] && ' ' !in token && verify(token) == Some(Claims(a, now))
    && header == Some(BearerPrefix + token)
  }

  /** As written, every token the application itself issues is refused:
      the claims have no `user` key, so reading `decoded.user.id` throws. */
  lemma IssuedTokenRefused(accounts: seq<Account>, a: Account, now: nat, header: Option<string>,
                           sign: Json -> string, verify: string -> Option<Json>)
    requires IssuedFor(header, a, now, sign, verify)
    ensures Gate(accounts, header, verify, SubjectAsWritten) == Refuse(InvalidToken)
  {
    BearerRoundTrip(sign(Claims(a, now)), []);
    assert BearerPrefix + sign(Claims(a, now)) + [] == header.value;
  }

  /** Reading the subject where the claims put it, a token issued for a
      stored account admits exactly that account. */
  lemma IssuedTokenAdmitted(accounts: seq<Account>, i: nat, now: nat, header: Option<string>,
                            sign: Json -> string, verify: string -> Option<Json>)
    requires forall p, q :: 0 <= p < q < |accounts| ==> accounts[p].id != accounts[q].id
    requires i < |accounts| && IssuedFor(header, accounts[i], now, sign, verify)
    ensures Gate(accounts, header, verify, SubjectAtTop)
            == Admit(RequestUser(accounts[i].id, accounts[i].email, accounts[i].role))
  {
    var a := accounts[i];
    BearerRoundTrip(sign(Claims(a, now)), []);
    assert BearerPrefix + sign(Claims(a, now)) + [] == header.value;
    forall p | 0 <= p < |accounts| && accounts[p].id == a.id
      ensures p == i
    {
    }
    assert AccountById(accounts, a.id) == Some(i);
  }
}
