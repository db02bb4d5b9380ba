/** The employer profile handlers (Controllers/employerController.js):
    `newEmployer`, an upsert keyed on the caller's account, and
    `deleteEmployer`. The handler builds `location` out of top-level keys
    the schema refuses, so as written every upsert empties the location;
    `NewEmployerCorrected` reads the nested object the schema validates. */
module EmployerController {
  import opened Base
  import opened Joi
  import opened EmployerModel
  import opened Store
  import opened Http

  /** `mongoose.Types.ObjectId.isValid` on a string: 24 hex digits, or any
      12 characters (read as 12 bytes). */
  predicate IsObjectIdLike(v: Json) {
    IsObjectIdString(v) || (v.JStr? && |v.s| == 12)
  }

  /** The nested `location` object of `employerValidation`. */
  predicate LocationSchema(v: Json) {
    v.JObj? && OnlyKeys(v.fields, {"country", "cityState", "street", "area", "pincode"})
    && (forall k :: k in {"country", "cityState", "street", "area"} && k in v.fields ==> IsString(v.fields[k], true, false))
    && ("pincode" in v.fields ==> IsNumber(v.fields["pincode"]) || v.fields["pincode"] == JStr(""))
  }

  const TextFields: set<string> := {"companyName", "industry", "companySize", "description", "hrName", "hrPhone"}

  /** `employerValidation`. */
  predicate EmployerSchema(b: Body) {
    OnlyKeys(b, TextFields + {"userName", "authId", "website", "location", "hrEmail", "jobPosted"})
    && ("userName" in b ==> IsString(b["userName"], false, true))
    && ("authId" in b ==> IsString(b["authId"], false, false) && IsObjectIdLike(b["authId"]))
    && (forall k :: k in TextFields && k in b ==> IsString(b[k], true, false))
    && ("website" in b ==> IsUri(b["website"]) || b["website"] == JStr(""))
    && ("location" in b ==> LocationSchema(b["location"]))
    && ("hrEmail" in b ==> IsEmail(b["hrEmail"]) || b["hrEmail"] == JStr(""))
    && ("jobPosted" in b ==> b["jobPosted"].JArr? && forall i :: 0 <= i < |b["jobPosted"].items| ==> b["jobPosted"].items[i].JObj?)
  }

  /** The value of a string of decimal digits. */
  function DigitsValue(s: string): nat {
    if s == [] then 0 else DigitsValue(s[..|s| - 1]) * 10 + (if '0' <= s[|s| - 1] <= '9' then s[|s| - 1] as int - '0' as int else 0)
  }

  /** Mongoose's cast of a value to the `Number` path `pincode`: a number is
      kept, a digit string is read, `""` and an absent value store nothing. */
  function PincodeCast(v: Json): (r: Option<int>)
    ensures v.JNum? ==> r == Some(v.n)
    ensures v == JNull || v == JStr("") ==> r.None?
  {
    match v
    case JNum(n) => Some(n)
    case JStr(s) => if IsDigits(s) then Some(DigitsValue(s)) else None
    case _ => None
  }

  /** Lines 46-77 as written: `location` assembled from the top-level keys
      `country`, `cityState`, `street`, `area` and `pincode`. */
  function LocationAsWritten(b: Body): Location {
    Location(OptStr(b, "country"), OptStr(b, "cityState"), OptStr(b, "street"), OptStr(b, "area"),
             PincodeCast(ValueAt(b, "pincode")))
  }

  /** Whatever the body, a body the schema accepts yields an empty
      location as written: none of the five keys it reads is allowed at the
      top level. */
  lemma LocationAlwaysEmpty(b: Body)
    requires EmployerSchema(b)
    ensures LocationAsWritten(b) == NoLocation
  {
    assert "country" !in b && "cityState" !in b && "street" !in b && "area" !in b && "pincode" !in b;
  }

  /** The location the body sends, read from the nested object the schema
      validates; `None` when there is none, so that `$set` leaves the stored
      one alone. */
  function NestedLocation(b: Body): (r: Option<Location>)
    ensures r.Some? <==> "location" in b && b["location"].JObj?
    ensures r.Some? ==> (r.value.country == OptStr(b["location"].fields, "country")
                         && r.value.pincode == PincodeCast(ValueAt(b["location"].fields, "pincode")))
  {
    if "location" in b && b["location"].JObj? then
      var l := b["location"].fields;
      Some(Location(OptStr(l, "country"), OptStr(l, "cityState"), OptStr(l, "street"), OptStr(l, "area"),
                    PincodeCast(ValueAt(l, "pincode"))))
    else None
  }

  /** `m` with `k` set to the string `v` when there is one. */
  function With(m: map<string, Json>, k: string, v: Option<string>): map<string, Json> {
    if v.Some? then m[k := JStr(v.value)] else m
  }

  /** The nested object a client sends for location `l`: one key per field
      that has a value. */
  function LocationJson(l: Location): (v: Json)
    ensures v.JObj? && v.fields.Keys <= {"country", "cityState", "street", "area", "pincode"}
  {
    var pin: map<string, Json> := if l.pincode.Some? then map["pincode" := JNum(l.pincode.value)] else map[];
    JObj(With(With(With(With(pin, "area", l.area), "street", l.street), "cityState", l.cityState), "country", l.country))
  }

  /** Read from the nested object, every location a client can send is
      accepted by the schema and stored as sent. */
  lemma LocationRoundTrip(l: Location)
    ensures var b := map["location" := LocationJson(l)];
            EmployerSchema(b) && NestedLocation(b) == Some(l)
  {
    var b := map["location" := LocationJson(l)];
    assert b.Keys == {"location"};
  }

  /** As written, the same bodies store no location at all. */
  lemma LocationLost(l: Location)
    requires l != NoLocation
    ensures var b := map["location" := LocationJson(l)];
            EmployerSchema(b) && LocationAsWritten(b) == NoLocation && LocationAsWritten(b) != l
  {
    LocationRoundTrip(l);
    LocationAlwaysEmpty(map["location" := LocationJson(l)]);
  }

  /** The string fields `newEmployer` sets. */
  const StoredFields: set<string> := TextFields + {"website", "hrEmail"}

  /** The stored value of string field `k`. */
  function TextOf(e: Employer, k: string): Option<string> {
    match k
    case "companyName" => e.companyName
    case "industry" => e.industry
    case "companySize" => e.companySize
    case "website" => e.website
    case "description" => e.description
    case "hrName" => e.hrName
    case "hrPhone" => e.hrPhone
    case "hrEmail" => e.hrEmail
    case _ => None
  }

  /** One key of a `$set`: the value sent, or the stored one when the key
      is `undefined` and Mongoose strips it. */
  function Assign(current: Option<string>, b: Body, k: string): Option<string> {
    if k in b && b[k].JStr? then Some(b[k].s) else current
  }

  /** The employer after the `$set` of lines 65-82, where `location` is the
      location the update sets (`None`: it is stripped). `authId` is set to
      the value the upsert is keyed on, so it does not change. */
  function Upserted(e: Employer, b: Body, location: Option<Location>): (r: Employer)
    ensures r.id == e.id && r.authId == e.authId && r.jobPosted == e.jobPosted && r.userName == e.userName
    ensures forall k :: k in StoredFields && k in b && b[k].JStr? ==> TextOf(r, k) == Some(b[k].s)
    ensures forall k :: k in StoredFields && k !in b ==> TextOf(r, k) == TextOf(e, k)
    ensures r.location == if location.Some? then location.value else e.location
  {
    e.(companyName := Assign(e.companyName, b, "companyName"),
       industry := Assign(e.industry, b, "industry"),
       companySize := Assign(e.companySize, b, "companySize"),
       website := Assign(e.website, b, "website"),
       location := if location.Some? then location.value else e.location,
       description := Assign(e.description, b, "description"),
       hrName := Assign(e.hrName, b, "hrName"),
       hrPhone := Assign(e.hrPhone, b, "hrPhone"),
       hrEmail := Assign(e.hrEmail, b, "hrEmail"))
  }

  /** Sending the same body twice stores the same profile as sending it
      once. */
  lemma UpsertIdempotent(e: Employer, b: Body, location: Option<Location>)
    ensures Upserted(Upserted(e, b, location), b, location) == Upserted(e, b, location)
  {
  }

  /** Two employers that differ only in fields the body sends become
      equal: the update decides every field it names. */
  lemma UpsertOverwrites(e1: Employer, e2: Employer, b: Body, location: Location)
    requires StoredFields <= b.Keys && forall k :: k in StoredFields ==> b[k].JStr?
    requires e1.id == e2.id && e1.authId == e2.authId && e1.jobPosted == e2.jobPosted && e1.userName == e2.userName
    ensures Upserted(e1, b, Some(location)) == Upserted(e2, b, Some(location))
  {
    assert "companyName" in b && "industry" in b && "companySize" in b && "website" in b;
    assert "description" in b && "hrName" in b && "hrPhone" in b && "hrEmail" in b;
  }

  /** `newEmployer`, with `location` the way the handler reads the location
      from the body: the caller's employer is updated, or created with the
      next id when there is none (`upsert: true`). The `!employer` branch of
      line 87 cannot be taken with an upsert. */
  method UpsertEmployer(db: Db, user: Id, body: Body, location: Body -> Option<Location>) returns (reply: Reply)
    requires db.Valid()
    modifies db`employers, db`nextId
    ensures db.Valid()
    ensures !EmployerSchema(body) ==> reply == Reply(400, Invalid) && db.employers == old(db.employers)
    ensures EmployerSchema(body) && EmployerOf(old(db.employers), user).Some? ==>
      var o := EmployerOf(old(db.employers), user).value;
      db.employers == old(db.employers)[o := Upserted(old(db.employers)[o], body, location(body))]
      && reply == Reply(201, EmployerDoc(db.employers[o]))
    ensures EmployerSchema(body) && EmployerOf(old(db.employers), user).None? ==>
      var e := Upserted(NewEmployer(old(db.nextId), user), body, location(body));
      db.employers == old(db.employers) + [e] && reply == Reply(201, EmployerDoc(e))
  {
    if !EmployerSchema(body) {
      return Reply(400, Invalid);
    }
    var found := EmployerOf(db.employers, user);
    if found.Some? {
      var o := found.value;
      var e := Upserted(db.employers[o], body, location(body));
      db.ReplaceEmployer(o, e);
      reply := Reply(201, EmployerDoc(e));
    } else {
      var e := Upserted(NewEmployer(db.nextId, user), body, location(body));
      db.AppendEmployer(e);
      reply := Reply(201, EmployerDoc(e));
    }
  }

  /** The location update as written: always the one assembled from the
      top-level keys. */
  function WrittenLocation(b: Body): (r: Option<Location>)
    ensures EmployerSchema(b) ==> r == Some(NoLocation)
  {
    assert EmployerSchema(b) ==> LocationAsWritten(b) == NoLocation by {
      if EmployerSchema(b) {
        LocationAlwaysEmpty(b);
      }
    }
    Some(LocationAsWritten(b))
  }

  /** `newEmployer` as written: every successful call empties the stored
      location. */
  method NewEmployerAsWritten(db: Db, user: Id, body: Body) returns (reply: Reply)
    requires db.Valid()
    modifies db`employers, db`nextId
    ensures db.Valid()
    ensures !EmployerSchema(body) ==> reply == Reply(400, Invalid) && db.employers == old(db.employers)
    ensures EmployerSchema(body) && EmployerOf(old(db.employers), user).Some? ==>
      var o := EmployerOf(old(db.employers), user).value;
      db.employers == old(db.employers)[o := Upserted(old(db.employers)[o], body, Some(NoLocation))]
      && reply == Reply(201, EmployerDoc(db.employers[o]))
    ensures EmployerSchema(body) && EmployerOf(old(db.employers), user).None? ==>
      var e := Upserted(NewEmployer(old(db.nextId), user), body, Some(NoLocation));
      db.employers == old(db.employers) + [e] && reply == Reply(201, EmployerDoc(e))
  {
    reply := UpsertEmployer(db, user, body, WrittenLocation);
  }

  /** `newEmployer` reading the nested `location` object. */
  method NewEmployerCorrected(db: Db, user: Id, body: Body) returns (reply: Reply)
    requires db.Valid()
    modifies db`employers, db`nextId
    ensures db.Valid()
    ensures !EmployerSchema(body) ==> reply == Reply(400, Invalid) && db.employers == old(db.employers)
    ensures EmployerSchema(body) && EmployerOf(old(db.employers), user).Some? ==>
      var o := EmployerOf(old(db.employers), user).value;
      db.employers == old(db.employers)[o := Upserted(old(db.employers)[o], body, NestedLocation(body))]
      && reply == Reply(201, EmployerDoc(db.employers[o]))
    ensures EmployerSchema(body) && EmployerOf(old(db.employers), user).None? ==>
      var e := Upserted(NewEmployer(old(db.nextId), user), body, NestedLocation(body));
      db.employers == old(db.employers) + [e] && reply == Reply(201, EmployerDoc(e))
  {
    reply := UpsertEmployer(db, user, body, NestedLocation);
  }

  /** `deleteEmployer`: removes the caller's employer, the only one keyed
      on that account, and no other. */
  method DeleteEmployer(db: Db, user: Id) returns (reply: Reply)
    requires db.Valid()
    modifies db`employers
    ensures db.Valid()
    ensures EmployerOf(old(db.employers), user).None? ==>
      reply == Reply(404, Message("Unable to delete")) && db.employers == old(db.employers)
    ensures EmployerOf(old(db.employers), user).Some? ==>
      var o := EmployerOf(old(db.employers), user).value;
      reply == Reply(200, Message("User profile deleted successfully"))
      && db.employers == old(db.employers)[..o] + old(db.employers)[o + 1..]
    ensures EmployerOf(db.employers, user).None?
    ensures forall e :: e in old(db.employers) && e.authId != user ==> e in db.employers
  {
    var found := EmployerOf(db.employers, user);
    if found.None? {
      return Reply(404, Message("Unable to delete"));
    }
    var o := found.value;
    ghost var before := db.employers;
    db.RemoveEmployer(o);
    forall i | 0 <= i < |db.employers|
      ensures db.employers[i].authId != user
    {
      var j := if i < o then i else i + 1;
      assert db.employers[i] == before[j] && j != o;
    }
    forall e | e in before && e.authId != user
      ensures e in db.employers
    {
      var j :| 0 <= j < |before| && before[j] == e;
      assert j != o;
      assert e == db.employers[if j < o then j else j - 1];
    }
    reply := Reply(200, Message("User profile deleted successfully"));
  }
}
