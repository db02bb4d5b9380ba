/** The verify callback of the Google strategy (passport.js): it resolves
    the Google profile to an account, by Google id first and by e-mail
    address second, creating a Google account only when both lookups fail,
    and inserts an empty Employee profile whenever the account's role is
    "employee". The OAuth exchange itself is not modelled. */
module Passport {
  import opened Base
  import opened AuthModel
  import opened EmployeeModel
  import opened Store

  /** The parts of the Google profile the callback reads: `profile.id`, the
      values of `profile.emails` and `profile.displayName`. */
  datatype GoogleProfile = GoogleProfile(id: string, emails: seq<string>, displayName: string)

  /** `done(null, user)` or `done(err, null)`. */
  datatype Done = DoneUser(account: Account) | DoneError

  /** Where the callback finds its account: at an index of the collection,
      by creating one, or nowhere because a statement throws. */
  datatype Resolution = Found(index: nat) | Create | Throws

  /** Lines 20-41 as a decision. `profile.emails[0].value` throws on an
      empty list; `Auth.create` throws when the e-mail is empty, since the
      `required` validator refuses `""`. */
  function Resolve(accounts: seq<Account>, p: GoogleProfile): (r: Resolution)
    ensures r.Throws? <==> (p.emails == [] ||
      (p.emails[0] == [] && AccountByGoogleId(accounts, p.id).None? && AccountByEmail(accounts, p.emails[0]).None?))
    ensures AccountByGoogleId(accounts, p.id).Some? && p.emails != [] ==>
      r == Found(AccountByGoogleId(accounts, p.id).value)
    ensures AccountByGoogleId(accounts, p.id).None? && p.emails != [] && AccountByEmail(accounts, p.emails[0]).Some? ==>
      r == Found(AccountByEmail(accounts, p.emails[0]).value)
    ensures r.Found? ==> r.index < |accounts|
    ensures r.Create? <==> (p.emails != [] && p.emails[0] != []
      && (forall i :: 0 <= i < |accounts| ==> accounts[i].googleId != Some(p.id) && accounts[i].email != p.emails[0]))
  {
    if p.emails == [] then Throws
    else match AccountByGoogleId(accounts, p.id)
      case Some(i) => Found(i)
      case None =>
        match AccountByEmail(accounts, p.emails[0])
        case Some(i) => Found(i)
        case None => if p.emails[0] == [] then Throws else Create
  }

  /** The account `Auth.create` makes for a new Google user: no password,
      provider "google", the Google id, and the default role. The
      `userName` key is not in the Auth schema and is dropped. */
  function GoogleAccount(id: Id, p: GoogleProfile): (a: Account)
    requires p.emails != []
    ensures WellFormed(a) && a.provider == GoogleProvider && a.password.None?
    ensures a.googleId == Some(p.id) && a.email == p.emails[0] && a.role == DefaultRole
  {
    Account(id, p.emails[0], None, GoogleProvider, Some(p.id), DefaultRole)
  }

  /** The account the callback hands to `done`, if any. */
  function Outcome(accounts: seq<Account>, n: nat, p: GoogleProfile): (r: Done)
    ensures Resolve(accounts, p).Throws? <==> r.DoneError?
  {
    match Resolve(accounts, p)
    case Found(i) => DoneUser(accounts[i])
    case Create => DoneUser(GoogleAccount(n, p))
    case Throws => DoneError
  }

  /** The accounts after the callback: one more only when it created one.
      The lookups that come first guarantee that the created account's
      e-mail address and Google id are new, so the unique indexes hold. */
  function AccountsAfter(accounts: seq<Account>, n: nat, p: GoogleProfile): (r: seq<Account>)
    ensures Resolve(accounts, p).Create? ==> r == accounts + [GoogleAccount(n, p)]
    ensures !Resolve(accounts, p).Create? ==> r == accounts
    ensures AccountsOk(accounts, n) ==> AccountsOk(r, n + 1)
  {
    if Resolve(accounts, p).Create? then
      assert AccountsOk(accounts, n) ==> AccountsOk(accounts + [GoogleAccount(n, p)], n + 1) by {
        if AccountsOk(accounts, n) {
          AccountAppended(accounts, n, GoogleAccount(n, p));
        }
      }
      accounts + [GoogleAccount(n, p)]
    else accounts
  }

  /** The callback, step by step. Lookups happen in the order of the
      source; the Employee insert follows every successful resolution of an
      employee account, so an employee who signs in `k` times owns `k`
      profiles. */
  method Verify(db: Db, profile: GoogleProfile) returns (done: Done)
    requires db.Valid()
    modifies db`accounts, db`employees, db`nextId
    ensures db.Valid()
    ensures done == Outcome(old(db.accounts), old(db.nextId), profile)
    ensures db.accounts == AccountsAfter(old(db.accounts), old(db.nextId), profile)
    ensures done.DoneError? || done.account.role == EmployerRole ==> db.employees == old(db.employees)
    ensures done.DoneUser? && done.account.role == EmployeeRole ==>
      var profileId := if Resolve(old(db.accounts), profile).Create? then old(db.nextId) + 1 else old(db.nextId);
      db.employees == old(db.employees) + [NewEmployee(profileId, done.account.id)]
  {
    if profile.emails == [] {
      return DoneError;
    }
    var email := profile.emails[0];
    var user := AccountByGoogleId(db.accounts, profile.id);
    if user.None? {
      user := AccountByEmail(db.accounts, email);
    }
    var account: Account;
    if user.None? {
      if email == [] {
        return DoneError;
      }
      account := GoogleAccount(db.nextId, profile);
      db.AppendAccount(account);
    } else {
      account := db.accounts[user.value];
    }
    if account.role == EmployeeRole {
      db.AppendEmployee(account.id);
    }
    done := DoneUser(account);
  }

  /** Signing in again with the same profile finds the account the first
      sign-in returned, and creates no account. */
  lemma SignInAgain(accounts: seq<Account>, n: nat, p: GoogleProfile)
    requires AccountsOk(accounts, n) && Outcome(accounts, n, p).DoneUser?
    ensures var after := AccountsAfter(accounts, n, p);
            Resolve(after, p).Found?
            && Outcome(after, n + 1, p) == Outcome(accounts, n, p)
            && AccountsAfter(after, n + 1, p) == after
  {
    var after := AccountsAfter(accounts, n, p);
    if Resolve(accounts, p).Create? {
      var a := GoogleAccount(n, p);
      assert after[|accounts|] == a;
      assert AccountByGoogleId(after, p.id) == Some(|accounts|);
    } else {
      assert after == accounts;
    }
  }

  /** An account found by its e-mail address is not linked to the Google
      id: no account carries that id afterwards, so every later sign-in
      with the profile again goes through the e-mail lookup. */
  lemma FoundByEmailNotLinked(accounts: seq<Account>, n: nat, p: GoogleProfile)
    requires p.emails != [] && AccountByGoogleId(accounts, p.id).None?
    requires AccountByEmail(accounts, p.emails[0]).Some?
    ensures var after := AccountsAfter(accounts, n, p);
            after == accounts && forall i :: 0 <= i < |after| ==> after[i].googleId != Some(p.id)
  {
  }

  /** A local account with the profile's e-mail address signs in through
      Google as itself, password and provider untouched. */
  lemma LocalAccountSignsIn(accounts: seq<Account>, n: nat, p: GoogleProfile, i: nat)
    requires AccountsOk(accounts, n) && i < |accounts| && p.emails != []
    requires accounts[i].email == p.emails[0] && accounts[i].googleId.None?
    requires forall j :: 0 <= j < |accounts| ==> accounts[j].googleId != Some(p.id)
    ensures Outcome(accounts, n, p) == DoneUser(accounts[i])
  {
    forall j | 0 <= j < |accounts| && accounts[j].email == p.emails[0]
      ensures j == i
    {
    }
  }
}
