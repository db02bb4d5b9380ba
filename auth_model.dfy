/** The Auth collection (Models/authModel.js): one account per e-mail
    address, a bcrypt digest for local accounts, and a role that is always
    one of two values. */
module AuthModel {
  import opened Base

  /** `role: {enum: ["employee", "employer"], default: "employee"}`; there is
      no third, unset value. */
  datatype Role = EmployeeRole | EmployerRole {
    function Name(): string {
      if EmployeeRole? then "employee" else "employer"
    }
  }

  const DefaultRole: Role := EmployeeRole

  /** Reads a role name as the enum accepts it. */
  function ParseRole(s: string): (r: Option<Role>)
    ensures r.Some? <==> s == "employee" || s == "employer"
    ensures r.Some? ==> r.value.Name() == s
  {
    if s == "employee" then Some(EmployeeRole)
    else if s == "employer" then Some(EmployerRole)
    else None
  }

  /** The UTF-8 encoding of one character. */
  function Utf8Char(c: char): (r: seq<nat>)
    ensures 1 <= |r| <= 4
    ensures forall i :: 0 <= i < |r| ==> r[i] < 256
    ensures (c as int) < 0x80 ==> r == [c as int]
    ensures c != '\0' ==> forall i :: 0 <= i < |r| ==> r[i] != 0
  {
    var n := c as int;
    if n < 0x80 then [n]
    else if n < 0x800 then [0xC0 + n / 64, 0x80 + n % 64]
    else if n < 0x1_0000 then [0xE0 + n / 4096, 0x80 + (n / 64) % 64, 0x80 + n % 64]
    else [0xF0 + n / 262144, 0x80 + (n / 4096) % 64, 0x80 + (n / 64) % 64, 0x80 + n % 64]
  }

  /** The UTF-8 encoding of a string, as bcryptjs feeds it to the hash. */
  function Utf8(s: string): seq<nat> {
    if s == [] then [] else Utf8Char(s[0]) + Utf8(s[1..])
  }

  /** The bytes of the Blowfish key schedule: it reads 72 bytes of key,
      cycling through the encoded password and its terminating zero, so a
      longer password is cut at 72 bytes. */
  const KeyLength := 72

  /** Byte `i` of `b` repeated without end. */
  function Cycled(b: seq<nat>, i: nat): nat
    requires b != []
    decreases i
  {
    if i < |b| then b[i] else Cycled(b, i - |b|)
  }

  function Key(password: string): (k: seq<nat>)
    ensures |k| == KeyLength
  {
    var b := Utf8(password) + [0];
    seq(KeyLength, i requires 0 <= i < KeyLength => Cycled(b, i))
  }

  /** A bcrypt digest. Hashing is not modelled: a digest is kept as the salt
      and the password it was computed from, and only `Matches` looks
      inside. The digest depends on the password only through its `Key`;
      this assumes of bcrypt that two different keys never share a
      digest. */
  datatype Digest = Digest(salt: nat, secret: string)

  /** `bcrypt.hash(password, 10)`; the random salt is a parameter. */
  function Hash(password: string, salt: nat): Digest {
    Digest(salt, password)
  }

  /** `bcrypt.compare(candidate, digest)`: the candidate is hashed with the
      digest's salt, so it matches when its key is the key of the password
      the digest was made from. */
  predicate Matches(candidate: string, d: Digest) {
    Key(candidate) == Key(d.secret)
  }

  /** Printable ASCII without the zero character: one byte per character. */
  predicate PlainAscii(s: string) {
    forall i :: 0 <= i < |s| ==> 0 < (s[i] as int) < 0x80
  }

  lemma {:induction false} AsciiUtf8(s: string)
    requires PlainAscii(s)
    ensures |Utf8(s)| == |s|
    ensures forall i :: 0 <= i < |s| ==> Utf8(s)[i] == s[i] as int
  {
    if s != [] {
      AsciiUtf8(s[1..]);
      assert Utf8(s) == [s[0] as int] + Utf8(s[1..]);
    }
  }

  /** Passwords whose encodings agree on their first 72 bytes share a key,
      so each matches the other's digest whatever follows. */
  lemma LongPasswordsShareKey(p: string, q: string, salt: nat)
    requires |Utf8(p)| >= KeyLength && |Utf8(q)| >= KeyLength
    requires Utf8(p)[..KeyLength] == Utf8(q)[..KeyLength]
    ensures Key(p) == Key(q) && Matches(q, Hash(p, salt))
  {
    var bp, bq := Utf8(p) + [0], Utf8(q) + [0];
    forall i | 0 <= i < KeyLength
      ensures Key(p)[i] == Key(q)[i]
    {
      assert bp[i] == Utf8(p)[..KeyLength][i];
      assert bq[i] == Utf8(q)[..KeyLength][i];
    }
  }

  /** Two ASCII passwords of at least 72 characters that agree on the first
      72 share a key: `"a" * 73` matches the digest of `"a" * 72 + "b"`. */
  lemma LongAsciiPasswordsMatch(p: string, q: string, salt: nat)
    requires PlainAscii(p) && PlainAscii(q)
    requires |p| >= KeyLength && |q| >= KeyLength && p[..KeyLength] == q[..KeyLength]
    ensures Matches(q, Hash(p, salt))
  {
    AsciiUtf8(p);
    AsciiUtf8(q);
    forall i | 0 <= i < KeyLength
      ensures Utf8(p)[..KeyLength][i] == Utf8(q)[..KeyLength][i]
    {
      assert p[i] == p[..KeyLength][i] && q[i] == q[..KeyLength][i];
    }
    LongPasswordsShareKey(p, q, salt);
  }

  /** Below 72 characters, two different ASCII passwords have different
      keys: the terminating zero marks where each ends. */
  lemma ShortAsciiPasswordsApart(p: string, q: string)
    requires PlainAscii(p) && PlainAscii(q)
    requires |p| < KeyLength && |q| < KeyLength && p != q
    ensures Key(p) != Key(q)
  {
    AsciiUtf8(p);
    AsciiUtf8(q);
    var bp, bq := Utf8(p) + [0], Utf8(q) + [0];
    assert forall i :: 0 <= i < |bp| ==> Key(p)[i] == bp[i] by {
      forall i | 0 <= i < |bp| ensures Key(p)[i] == bp[i] { assert Key(p)[i] == Cycled(bp, i); }
    }
    assert forall i :: 0 <= i < |bq| ==> Key(q)[i] == bq[i] by {
      forall i | 0 <= i < |bq| ensures Key(q)[i] == bq[i] { assert Key(q)[i] == Cycled(bq, i); }
    }
    if |p| < |q| {
      assert Key(p)[|p|] == 0 && Key(q)[|p|] == q[|p|] as int;
    } else if |q| < |p| {
      assert Key(q)[|q|] == 0 && Key(p)[|q|] == p[|q|] as int;
    } else {
      var i :| 0 <= i < |p| && p[i] != q[i];
      assert Key(p)[i] == p[i] as int && Key(q)[i] == q[i] as int;
    }
  }

  const LocalProvider := "local"
  const GoogleProvider := "google"

  /** An Auth document. `password` is `None` for accounts created through
      Google (`password: null`). */
  datatype Account = Account(
    id: Id,
    email: string,
    password: Option<Digest>,
    provider: string,
    googleId: Option<string>,
    role: Role)

  /** The two shapes the flows create: a local account with a digest, or a
      Google account with a Google id and no password. */
  predicate WellFormed(a: Account) {
    (a.provider == LocalProvider && a.password.Some?)
    || (a.provider == GoogleProvider && a.password.None? && a.googleId.Some?)
  }
}
