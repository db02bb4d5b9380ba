/** Registration, password login and role selection
    (Controllers/authController.js). The bcrypt salt, the clock and the JWT
    signer are parameters. */
module AuthController {
  import opened Base
  import opened Joi
  import opened AuthModel
  import opened EmployeeModel
  import EmployerModel
  import opened Store
  import opened Http
  import opened Token

  const MinPasswordLength := 6

  /** `joi.string().min(6)`, which counts UTF-16 code units. */
  predicate IsPassword(v: Json) {
    v.JStr? && Utf16Length(v.s) >= MinPasswordLength
  }

  /** Three characters beyond U+FFFF are six code units, enough for `min(6)`. */
  lemma ThreeEmojiArePassword()
    ensures IsPassword(JStr("\U{1F600}\U{1F600}\U{1F600}"))
  {
    var s := "\U{1F600}\U{1F600}\U{1F600}";
    assert s[1..][1..][1..] == [];
  }

  /** `registerValidation`: a `role` key is allowed but never read. */
  predicate RegisterSchema(b: Body) {
    OnlyKeys(b, {"password", "email", "role"})
    && "password" in b && IsPassword(b["password"])
    && "email" in b && IsEmail(b["email"])
    && ("role" in b ==> IsString(b["role"], false, false))
  }

  /** `loginValidation`. */
  predicate LoginSchema(b: Body) {
    OnlyKeys(b, {"email", "password"})
    && "email" in b && IsEmail(b["email"])
    && "password" in b && IsPassword(b["password"])
  }

  /** `roleValidation`. */
  predicate RoleSchema(b: Body) {
    OnlyKeys(b, {"role"}) && "role" in b && IsOneOf(b["role"], {"employee", "employer"}, false)
  }

  /** The account `registerUser` creates: a local account holding the digest
      of the password, with the schema's default role. */
  function RegisteredAccount(id: Id, b: Body, salt: nat): (a: Account)
    ensures WellFormed(a) && a.provider == LocalProvider && a.role == EmployeeRole
    ensures a.password == Some(Hash(StrAt(b, "password"), salt))
  {
    Account(id, StrAt(b, "email"), Some(Hash(StrAt(b, "password"), salt)), LocalProvider, None, DefaultRole)
  }

  /** `registerUser`. The role default makes the account an employee, so an
      empty Employee profile is created with it; the Employer branch of the
      handler is never taken. */
  method RegisterUser(db: Db, body: Body, salt: nat, now: nat, sign: Json -> string) returns (reply: Reply)
    requires db.Valid()
    modifies db`accounts, db`employees, db`nextId
    ensures db.Valid()
    ensures !RegisterSchema(body) ==>
      reply == Reply(400, Invalid) && db.accounts == old(db.accounts) && db.employees == old(db.employees)
    ensures RegisterSchema(body) && AccountByEmail(old(db.accounts), StrAt(body, "email")).Some? ==>
      reply == Reply(400, Message("Email already registered"))
      && db.accounts == old(db.accounts) && db.employees == old(db.employees)
    ensures RegisterSchema(body) && AccountByEmail(old(db.accounts), StrAt(body, "email")).None? ==>
      var a := RegisteredAccount(old(db.nextId), body, salt);
      db.accounts == old(db.accounts) + [a]
      && db.employees == old(db.employees) + [NewEmployee(old(db.nextId) + 1, a.id)]
      && reply == Reply(201, Session(a.id, a.email, sign(Claims(a, now))))
  {
    if !RegisterSchema(body) {
      return Reply(400, Invalid);
    }
    var email := StrAt(body, "email");
    if AccountByEmail(db.accounts, email).Some? {
      return Reply(400, Message("Email already registered"));
    }
    var a := RegisteredAccount(db.nextId, body, salt);
    db.AppendAccount(a);
    // The role is the default, so of the two creations only `Employee.create` happens.
    db.AppendEmployee(a.id);
    reply := Reply(201, Session(a.id, a.email, sign(Claims(a, now))));
  }

  /** `bcrypt.compare(password, user.password)` on a stored account. */
  predicate PasswordOk(candidate: string, a: Account) {
    a.password.Some? && Matches(candidate, a.password.value)
  }

  /** `loginUser`, which reads the accounts and changes nothing. */
  function Login(accounts: seq<Account>, body: Body, now: nat, sign: Json -> string): (r: Reply)
    ensures !LoginSchema(body) ==> r == Reply(400, Invalid)
    ensures LoginSchema(body) && AccountByEmail(accounts, StrAt(body, "email")).None? ==>
      r == Reply(403, Message("User does not Exist"))
    ensures LoginSchema(body) && AccountByEmail(accounts, StrAt(body, "email")).Some?
            && accounts[AccountByEmail(accounts, StrAt(body, "email")).value].provider == GoogleProvider ==>
      r == Reply(403, Message("Use Google to sign in with this account"))
    ensures LoginSchema(body) && AccountByEmail(accounts, StrAt(body, "email")).Some?
            && accounts[AccountByEmail(accounts, StrAt(body, "email")).value].provider != GoogleProvider
            && !PasswordOk(StrAt(body, "password"), accounts[AccountByEmail(accounts, StrAt(body, "email")).value]) ==>
      r == Reply(401, Message("Invalid Password"))
    ensures r.status == 200 <==>
      LoginSchema(body) && AccountByEmail(accounts, StrAt(body, "email")).Some?
      && accounts[AccountByEmail(accounts, StrAt(body, "email")).value].provider != GoogleProvider
      && PasswordOk(StrAt(body, "password"), accounts[AccountByEmail(accounts, StrAt(body, "email")).value])
    ensures r.status == 200 ==>
      var a := accounts[AccountByEmail(accounts, StrAt(body, "email")).value];
      r.payload == Session(a.id, a.email, sign(Claims(a, now)))
  {
    if !LoginSchema(body) then Reply(400, Invalid)
    else match AccountByEmail(accounts, StrAt(body, "email"))
      case None => Reply(403, Message("User does not Exist"))
      case Some(i) =>
        var a := accounts[i];
        if a.provider == GoogleProvider then Reply(403, Message("Use Google to sign in with this account"))
        else if !PasswordOk(StrAt(body, "password"), a) then Reply(401, Message("Invalid Password"))
        else Reply(200, Session(a.id, a.email, sign(Claims(a, now))))
  }

  /** After a registration the same e-mail and password log in, as the
      account just created. */
  lemma RegisterThenLogin(accounts: seq<Account>, body: Body, id: Id, salt: nat, now: nat, sign: Json -> string)
    requires RegisterSchema(body) && "role" !in body
    requires AccountByEmail(accounts, StrAt(body, "email")).None?
    ensures var a := RegisteredAccount(id, body, salt);
            Login(accounts + [a], body, now, sign) == Reply(200, Session(id, a.email, sign(Claims(a, now))))
  {
    var a := RegisteredAccount(id, body, salt);
    var xs := accounts + [a];
    var email := StrAt(body, "email");
    assert xs[|accounts|].email == email;
    var r := AccountByEmail(xs, email);
    assert forall i :: 0 <= i < |accounts| ==> xs[i] == accounts[i];
    assert r == Some(|accounts|);
  }

  /** A wrong password of fewer than 72 ASCII characters never logs in,
      whatever the salt. */
  lemma WrongPasswordRefused(accounts: seq<Account>, body: Body, now: nat, sign: Json -> string)
    requires LoginSchema(body)
    requires AccountByEmail(accounts, StrAt(body, "email")).Some?
    requires var a := accounts[AccountByEmail(accounts, StrAt(body, "email")).value];
             a.provider == LocalProvider && a.password.Some? && a.password.value.secret != StrAt(body, "password")
             && PlainAscii(a.password.value.secret) && |a.password.value.secret| < KeyLength
             && PlainAscii(StrAt(body, "password")) && |StrAt(body, "password")| < KeyLength
    ensures Login(accounts, body, now, sign) == Reply(401, Message("Invalid Password"))
  {
    var a := accounts[AccountByEmail(accounts, StrAt(body, "email")).value];
    ShortAsciiPasswordsApart(StrAt(body, "password"), a.password.value.secret);
  }

  /** bcrypt reads 72 bytes of a password: a different password that agrees
      with the stored one on its first 72 characters logs in. */
  lemma LongPasswordTruncated(accounts: seq<Account>, body: Body, now: nat, sign: Json -> string)
    requires LoginSchema(body)
    requires AccountByEmail(accounts, StrAt(body, "email")).Some?
    requires var a := accounts[AccountByEmail(accounts, StrAt(body, "email")).value];
             var p := StrAt(body, "password");
             a.provider == LocalProvider && a.password.Some?
             && PlainAscii(a.password.value.secret) && PlainAscii(p)
             && |a.password.value.secret| >= KeyLength && |p| >= KeyLength
             && a.password.value.secret[..KeyLength] == p[..KeyLength]
    ensures Login(accounts, body, now, sign).status == 200
  {
    var a := accounts[AccountByEmail(accounts, StrAt(body, "email")).value];
    LongAsciiPasswordsMatch(a.password.value.secret, StrAt(body, "password"), a.password.value.salt);
  }

  /** `setRole`: the account takes the role, and a profile of the matching
      kind is upserted on `{authId}`. The strict schemas drop the `role` key
      from that upsert, so an existing profile is left as it is and a
      missing one is created empty; a profile of the other kind is never
      removed. */
  method SetRole(db: Db, user: Id, body: Body) returns (reply: Reply)
    requires db.Valid()
    modifies db`accounts, db`employees, db`employers, db`nextId
    ensures db.Valid()
    ensures !RoleSchema(body) ==>
      reply == Reply(400, Invalid) && db.accounts == old(db.accounts)
      && db.employees == old(db.employees) && db.employers == old(db.employers)
    ensures RoleSchema(body) && AccountById(old(db.accounts), user).None? ==>
      reply == Reply(404, Message("User profile not found")) && db.accounts == old(db.accounts)
      && db.employees == old(db.employees) && db.employers == old(db.employers)
    ensures RoleSchema(body) && AccountById(old(db.accounts), user).Some? ==>
      var i := AccountById(old(db.accounts), user).value;
      var role := if StrAt(body, "role") == "employee" then EmployeeRole else EmployerRole;
      db.accounts == old(db.accounts)[i := old(db.accounts)[i].(role := role)]
      && reply == Reply(201, AccountDoc(db.accounts[i]))
      && (role == EmployeeRole ==>
            db.employers == old(db.employers)
            && db.employees == if EmployeeOf(old(db.employees), user).Some? then old(db.employees)
                               else old(db.employees) + [NewEmployee(old(db.nextId), user)])
      && (role == EmployerRole ==>
            db.employees == old(db.employees)
            && db.employers == if EmployerOf(old(db.employers), user).Some? then old(db.employers)
                               else old(db.employers) + [EmployerModel.NewEmployer(old(db.nextId), user)])
  {
    if !RoleSchema(body) {
      return Reply(400, Invalid);
    }
    var found := AccountById(db.accounts, user);
    if found.None? {
      return Reply(404, Message("User profile not found"));
    }
    var i := found.value;
    var role := if StrAt(body, "role") == "employee" then EmployeeRole else EmployerRole;
    db.SetAccountRole(i, role);
    if role == EmployeeRole {
      if EmployeeOf(db.employees, user).None? {
        db.AppendEmployee(user);
      }
    } else {
      if EmployerOf(db.employers, user).None? {
        db.AppendEmployer(EmployerModel.NewEmployer(db.nextId, user));
      }
    }
    reply := Reply(201, AccountDoc(db.accounts[i]));
  }
}
