/** The employee handlers (Controllers/employeeController.js): the profile
    upsert and the add / edit / delete protocol every sub-resource array
    follows. The per-kind handlers of the source differ only in their
    schema, the fields they copy, their messages and, for languages, in
    answering with the document as it was before the update; here they
    are one handler per operation, parameterised by the kind. */
module EmployeeController {
  import opened Base
  import opened Joi
  import opened EmployeeModel
  import opened SubResource
  import opened Store
  import opened Http

  // ---------------------------------------------------------------------
  // Validation schemas

  /** `profileSchema`. */
  predicate ProfileSchema(b: Body) {
    OnlyKeys(b, {"userName", "phone", "location"})
    && ("userName" in b ==> IsString(b["userName"], false, true))
    && ("phone" in b ==> IsString(b["phone"], false, true))
    && ("location" in b ==> LocationSchema(b["location"]))
  }

  /** The nested `location` object of `profileSchema`. */
  predicate LocationSchema(v: Json) {
    v.JObj?
    && OnlyKeys(v.fields, {"country", "street", "cityState", "area", "pincode", "relocation"})
    && (forall key :: key in v.fields && key != "relocation" ==> IsString(v.fields[key], false, true))
    && ("relocation" in v.fields ==> IsBoolean(v.fields["relocation"]))
  }

  /** `educationSchema`: degree and course are both required. */
  predicate EducationSchema(b: Body) {
    OnlyKeys(b, {"degree", "course", "educationId"})
    && "degree" in b && IsString(b["degree"], false, false)
    && "course" in b && IsString(b["course"], false, false)
    && ("educationId" in b ==> IsObjectIdString(b["educationId"]))
  }

  /** `jobSchema` (work experience). */
  predicate ExperienceSchema(b: Body, parsesAsDate: string -> bool) {
    OnlyKeys(b, {"company", "title", "startDate", "endDate", "description", "experienceId"})
    && "company" in b && IsString(b["company"], false, false)
    && "title" in b && IsString(b["title"], false, false)
    && "startDate" in b && IsDate(b["startDate"], parsesAsDate)
    && "endDate" in b && IsDate(b["endDate"], parsesAsDate)
    && "description" in b && IsString(b["description"], false, false)
    && ("experienceId" in b ==> IsObjectIdString(b["experienceId"]))
  }

  /** `skillSchema`. */
  predicate SkillSchema(b: Body) {
    OnlyKeys(b, {"name", "experience"})
    && "name" in b && IsString(b["name"], false, false)
    && ("experience" in b ==> IsString(b["experience"], true, false))
  }

  /** `certificationSchema`. */
  predicate CertificationSchema(b: Body) {
    OnlyKeys(b, {"name", "expireYear", "certificationId"})
    && "name" in b && IsString(b["name"], false, false)
    && ("expireYear" in b ==> IsString(b["expireYear"], true, false))
    && ("certificationId" in b ==> IsString(b["certificationId"], false, false))
  }

  /** `languageSchema`. */
  predicate LanguageSchema(b: Body) {
    OnlyKeys(b, {"name", "proficiency", "languageId"})
    && "name" in b && IsString(b["name"], false, false)
    && ("proficiency" in b ==> IsOneOf(b["proficiency"], Proficiencies, true))
    && ("languageId" in b ==> IsObjectIdString(b["languageId"]))
  }

  /** `jobPreferenceSchema`. */
  predicate PreferenceSchema(b: Body) {
    OnlyKeys(b, {"jobTitle", "preferredLocation", "expectedSalary", "jobType",
                 "workAvailability", "shiftPreference", "remote", "preferenceId"})
    && "jobTitle" in b && IsArrayOfStrings(b["jobTitle"], false)
    && "preferredLocation" in b && IsArrayOfStrings(b["preferredLocation"], false)
    && ("expectedSalary" in b ==> IsOneOf(b["expectedSalary"], SalaryBands, false))
    && ("jobType" in b ==> IsArrayOfChoices(b["jobType"], PreferredJobTypes, false))
    && "workAvailability" in b && IsArrayOfChoices(b["workAvailability"], WorkAvailabilities, false)
    && "shiftPreference" in b && IsArrayOfChoices(b["shiftPreference"], ShiftPreferences, false)
    && ("remote" in b ==> IsOneOf(b["remote"], RemoteModes, false))
    && ("preferenceId" in b ==> IsObjectIdString(b["preferenceId"]))
  }

  /** The schema the handlers of kind `k` validate with. */
  predicate Schema(k: Kind, b: Body, parsesAsDate: string -> bool) {
    match k
    case Education => EducationSchema(b)
    case Experience => ExperienceSchema(b, parsesAsDate)
    case Skills => SkillSchema(b)
    case Certifications => CertificationSchema(b)
    case Languages => LanguageSchema(b)
    case JobPreferences => PreferenceSchema(b)
  }

  // ---------------------------------------------------------------------
  // What the handlers store

  /** The sub-document an add handler pushes: the fields it copies from the
      body, with `experience || ""` for skills and the preference defaults
      `expectedSalary || "0-3 LPA"`, `jobType || []`, `remote || "onsite"`. */
  function NewItem(k: Kind, b: Body): (item: Item)
    ensures item.KindOf() == k
    ensures k == Education ==> item.degree == StrAt(b, "degree") && item.course == StrAt(b, "course")
    ensures k == Experience ==>
      item.company == StrAt(b, "company") && item.title == StrAt(b, "title")
      && item.startDate == ValueAt(b, "startDate") && item.endDate == ValueAt(b, "endDate")
      && item.description == StrAt(b, "description")
    ensures k == Skills ==> item.name == StrAt(b, "name")
    ensures k == Skills && ValueAt(b, "experience").JStr? ==> item.experience == ValueAt(b, "experience").s
    ensures k == Skills && !Truthy(ValueAt(b, "experience")) ==> item.experience == ""
    ensures k == Certifications ==> item.name == StrAt(b, "name") && item.expireYear == OptStr(b, "expireYear")
    ensures k == Languages ==> item.name == StrAt(b, "name") && item.proficiency == OptStr(b, "proficiency")
    ensures k == JobPreferences ==>
      item.jobTitle == StringsAt(b, "jobTitle") && item.preferredLocation == StringsAt(b, "preferredLocation")
      && item.workAvailability == StringsAt(b, "workAvailability")
      && item.shiftPreference == StringsAt(b, "shiftPreference")
    ensures k == JobPreferences && !Truthy(ValueAt(b, "expectedSalary")) ==> item.expectedSalary == DefaultSalaryBand
    ensures k == JobPreferences && Truthy(ValueAt(b, "expectedSalary")) && ValueAt(b, "expectedSalary").JStr? ==>
      item.expectedSalary == ValueAt(b, "expectedSalary").s
    ensures k == JobPreferences && "jobType" !in b ==> item.jobType == []
    ensures k == JobPreferences && !Truthy(ValueAt(b, "remote")) ==> item.remote == DefaultRemoteMode
    ensures k == JobPreferences && Truthy(ValueAt(b, "remote")) && ValueAt(b, "remote").JStr? ==>
      item.remote == ValueAt(b, "remote").s
  {
    match k
    case Education => EducationItem(StrAt(b, "degree"), StrAt(b, "course"))
    case Experience =>
      ExperienceItem(StrAt(b, "company"), StrAt(b, "title"), ValueAt(b, "startDate"),
                     ValueAt(b, "endDate"), StrAt(b, "description"))
    case Skills => SkillItem(StrAt(b, "name"), StrAt(b, "experience"))
    case Certifications => CertificationItem(StrAt(b, "name"), OptStr(b, "expireYear"))
    case Languages => LanguageItem(StrAt(b, "name"), OptStr(b, "proficiency"))
    case JobPreferences =>
      PreferenceItem(StringsAt(b, "jobTitle"), StringsAt(b, "preferredLocation"),
                     OrElse(OptStr(b, "expectedSalary"), DefaultSalaryBand), StringsAt(b, "jobType"),
                     StringsAt(b, "workAvailability"), StringsAt(b, "shiftPreference"),
                     OrElse(OptStr(b, "remote"), DefaultRemoteMode))
  }

  /** The first check of an edit: `editSkills` only asks for a truthy `name`
      (and Mongoose must be able to cast it to a string), the other edits
      validate with their schema. `None` when the request passes. */
  function EditCheck(k: Kind, b: Body, parsesAsDate: string -> bool): (r: Option<Reply>)
    ensures k != Skills ==> (r.None? <==> Schema(k, b, parsesAsDate))
    ensures k != Skills && r.Some? ==> r.value == Reply(400, Invalid)
    ensures k == Skills ==> (r.None? <==> Truthy(ValueAt(b, "name")) && CastString(ValueAt(b, "name")).Some?)
    ensures k == Skills && !Truthy(ValueAt(b, "name")) ==> r == Some(Reply(400, Message("Skill name is required")))
    ensures k == Skills && Truthy(ValueAt(b, "name")) && CastString(ValueAt(b, "name")).None? ==>
      r == Some(Reply(500, ServerError))
  {
    if k == Skills then
      if !Truthy(ValueAt(b, "name")) then Some(Reply(400, Message("Skill name is required")))
      else if CastString(ValueAt(b, "name")).None? then Some(Reply(500, ServerError))
      else None
    else if !Schema(k, b, parsesAsDate) then Some(Reply(400, Invalid))
    else None
  }

  /** `name` as Mongoose casts it for `editSkills` (`""` when it cannot,
      a case `EditCheck` has already answered). */
  function SkillName(b: Body): string {
    match CastString(ValueAt(b, "name"))
    case Some(s) => s
    case None => ""
  }

  /** The duplicate key an edit request asks about. */
  function EditKey(k: Kind, b: Body): seq<string> {
    if k == Skills then [SkillName(b)] else NewItem(k, b).Key()
  }

  /** `experience || ""` as Mongoose casts it for the update of
      `editSkills`, which happens before the update runs its query: `None`
      when it cannot be cast to a string. */
  function SkillExperience(b: Body): (r: Option<string>)
    ensures !Truthy(ValueAt(b, "experience")) ==> r == Some("")
    ensures ValueAt(b, "experience").JStr? ==> r == Some(ValueAt(b, "experience").s)
    ensures r.None? <==> Truthy(ValueAt(b, "experience")) && CastString(ValueAt(b, "experience")).None?
  {
    if !Truthy(ValueAt(b, "experience")) then Some("") else CastString(ValueAt(b, "experience"))
  }

  /** The update of an edit cannot be cast, so `findOneAndUpdate` throws
      before it looks for the element: only `editSkills` can get there. */
  predicate UpdateCastFails(k: Kind, b: Body) {
    k == Skills && SkillExperience(b).None?
  }

  /** The fields a positional `$set` leaves in the edited element. Mongoose
      drops `undefined` values from an update, so an edit that omits the
      optional `expireYear` or `proficiency` keeps the stored one. */
  function EditedItem(k: Kind, b: Body, current: Item): (r: Item)
    ensures r.KindOf() == k && r.Key() == EditKey(k, b)
    ensures k == Skills && SkillExperience(b).Some? ==>
      r == SkillItem(SkillName(b), SkillExperience(b).value)
    ensures k == Certifications && "expireYear" in b ==> r.expireYear == OptStr(b, "expireYear")
    ensures k == Certifications && "expireYear" !in b && current.CertificationItem? ==>
      r.expireYear == current.expireYear
    ensures k == Languages && "proficiency" in b ==> r.proficiency == OptStr(b, "proficiency")
    ensures k == Languages && "proficiency" !in b && current.LanguageItem? ==>
      r.proficiency == current.proficiency
    ensures k !in {Skills, Certifications, Languages} ==> r == NewItem(k, b)
  {
    match k
    case Skills =>
      SkillItem(SkillName(b), match SkillExperience(b) case Some(e) => e case None => "")
    case Certifications =>
      var kept := if current.CertificationItem? then current.expireYear else None;
      CertificationItem(StrAt(b, "name"), if "expireYear" in b then OptStr(b, "expireYear") else kept)
    case Languages =>
      var kept := if current.LanguageItem? then current.proficiency else None;
      LanguageItem(StrAt(b, "name"), if "proficiency" in b then OptStr(b, "proficiency") else kept)
    case _ => NewItem(k, b)
  }

  // ---------------------------------------------------------------------
  // The queries and array updates of the handlers

  /** `findOne({authId: user, <k>: {$elemMatch: {<key>, _id: {$ne: except}}}})`
      finds a profile: some profile of the account already has an element
      with that key (other than the one being edited). */
  predicate HasDuplicate(es: seq<Employee>, user: Id, k: Kind, key: seq<string>, except: Option<Id>) {
    exists i :: 0 <= i < |es| && es[i].authId == user && HasKey(es[i].Entries(k), key, except)
  }

  /** The profile `findOneAndUpdate({authId: user, "<k>._id": id}, ...)` updates:
      the first profile of the account that has an element with that id. */
  function HolderOf(es: seq<Employee>, user: Id, k: Kind, id: Id): (r: Option<nat>)
    ensures r.Some? ==> r.value < |es| && es[r.value].authId == user && HasId(es[r.value].Entries(k), id)
    ensures r.None? <==> forall i :: 0 <= i < |es| ==> !(es[i].authId == user && HasId(es[i].Entries(k), id))
  {
    FirstIndex(es, (e: Employee) => e.authId == user && HasId(e.Entries(k), id))
  }

  /** The element the positional operator `$` designates: the first one
      with that id. */
  function EntryWithId(xs: seq<Entry>, id: Id): (r: Entry)
    requires HasId(xs, id)
    ensures r in xs && r.id == id
  {
    var p := FirstIndex(xs, (x: Entry) => x.id == id);
    xs[p.value]
  }

  /** `$push: {<k>: item}`: one element appended at the end, nothing else
      touched. */
  function Pushed(e: Employee, k: Kind, entry: Entry): (r: Employee)
    ensures r.Entries(k) == e.Entries(k) + [entry]
    ensures forall k' :: k' != k ==> r.Entries(k') == e.Entries(k')
    ensures r.id == e.id && r.authId == e.authId && r.appliedJobs == e.appliedJobs
  {
    e.WithEntries(k, e.Entries(k) + [entry])
  }

  /** `$set: {"<k>.$.<field>": ...}`: the element with `_id == id` takes the
      new fields. */
  function Overwritten(e: Employee, k: Kind, id: Id, item: Item): (r: Employee)
    ensures |r.Entries(k)| == |e.Entries(k)|
    ensures forall k' :: k' != k ==> r.Entries(k') == e.Entries(k')
    ensures r.id == e.id && r.authId == e.authId && r.appliedJobs == e.appliedJobs
  {
    e.WithEntries(k, SetFirst(e.Entries(k), id, item))
  }

  /** `$pull: {<k>: {_id: id}}`. */
  function Pulled(e: Employee, k: Kind, id: Id): (r: Employee)
    ensures !HasId(r.Entries(k), id)
    ensures forall k' :: k' != k ==> r.Entries(k') == e.Entries(k')
    ensures r.id == e.id && r.authId == e.authId && r.appliedJobs == e.appliedJobs
  {
    e.WithEntries(k, PullAll(e.Entries(k), id))
  }

  // ---------------------------------------------------------------------
  // Properties of the array updates

  /** A successful add keeps the profile well formed: the new element has a
      fresh id and, for the de-duplicated kinds, a key no element has. */
  lemma PushKeepsProfile(e: Employee, n: nat, k: Kind, item: Item)
    requires EmployeeOk(e, n) && item.KindOf() == k
    requires k.Deduped() ==> !HasKey(e.Entries(k), item.Key(), None)
    ensures EmployeeOk(Pushed(e, k, Entry(n, item)), n + 1)
  {
    var r := Pushed(e, k, Entry(n, item));
    forall k': Kind
      ensures CollectionOk(k', r.Entries(k'), n + 1)
    {
      assert CollectionOk(k', e.Entries(k'), n);
      if k' == k {
        PushOk(k, e.Entries(k), n, item);
      }
    }
  }

  /** A successful edit keeps the profile well formed. */
  lemma OverwriteKeepsProfile(e: Employee, n: nat, k: Kind, id: Id, item: Item)
    requires EmployeeOk(e, n) && item.KindOf() == k
    requires k.Deduped() ==> !HasKey(e.Entries(k), item.Key(), Some(id))
    ensures EmployeeOk(Overwritten(e, k, id, item), n)
  {
    var r := Overwritten(e, k, id, item);
    forall k': Kind
      ensures CollectionOk(k', r.Entries(k'), n)
    {
      if k' == k {
        SetFirstOk(k, e.Entries(k), n, id, item);
      }
    }
  }

  /** A delete keeps the profile well formed. */
  lemma PullKeepsProfile(e: Employee, n: nat, k: Kind, id: Id)
    requires EmployeeOk(e, n)
    ensures EmployeeOk(Pulled(e, k, id), n)
  {
    var r := Pulled(e, k, id);
    forall k': Kind
      ensures CollectionOk(k', r.Entries(k'), n)
    {
      if k' == k {
        PullAllOk(k, e.Entries(k), n, id);
      }
    }
  }

  /** An edit overwrites exactly the element with that id; every other
      element and the length stay. */
  lemma OverwriteOnlyTarget(e: Employee, k: Kind, id: Id, item: Item)
    requires IdsUnique(e.Entries(k))
    ensures var xs := e.Entries(k);
            var ys := Overwritten(e, k, id, item).Entries(k);
            |ys| == |xs|
            && forall i :: 0 <= i < |xs| ==> ys[i] == if xs[i].id == id then Entry(id, item) else xs[i]
  {
    SetFirstAt(e.Entries(k), id, item);
  }

  /** A delete removes exactly the element with that id and keeps the
      others in order. */
  lemma PullOnlyTarget(e: Employee, k: Kind, id: Id, p: nat)
    requires IdsUnique(e.Entries(k)) && p < |e.Entries(k)| && e.Entries(k)[p].id == id
    ensures Pulled(e, k, id).Entries(k) == e.Entries(k)[..p] + e.Entries(k)[p + 1..]
  {
    PullAt(e.Entries(k), id, p);
  }

  /** Deleting the element an add has just pushed gives the profile back
      as it was. */
  lemma AddThenDeleteRestores(e: Employee, n: nat, k: Kind, item: Item)
    requires EmployeeOk(e, n)
    ensures Pulled(Pushed(e, k, Entry(n, item)), k, n) == e
  {
    var xs := e.Entries(k);
    var ys := xs + [Entry(n, item)];
    assert CollectionOk(k, xs, n);
    assert IdsUnique(ys);
    PullAt(ys, n, |xs|);
    assert ys[..|xs|] + ys[|xs| + 1..] == xs;
    var r := Pulled(Pushed(e, k, Entry(n, item)), k, n);
    assert r.Entries(k) == xs;
    forall k': Kind
      ensures r.Entries(k') == e.Entries(k')
    {
    }
    assert r.education == e.education by { assert r.Entries(Education) == e.Entries(Education); }
    assert r.experience == e.experience by { assert r.Entries(Experience) == e.Entries(Experience); }
    assert r.skills == e.skills by { assert r.Entries(Skills) == e.Entries(Skills); }
    assert r.certifications == e.certifications by { assert r.Entries(Certifications) == e.Entries(Certifications); }
    assert r.languages == e.languages by { assert r.Entries(Languages) == e.Entries(Languages); }
    assert r.jobPreferences == e.jobPreferences by { assert r.Entries(JobPreferences) == e.Entries(JobPreferences); }
  }

  /** Once an add has gone through, sending the same body again is refused
      as a duplicate. */
  lemma AddTwiceRefused(es: seq<Employee>, o: nat, k: Kind, entry: Entry)
    requires o < |es|
    ensures HasDuplicate(es[o := Pushed(es[o], k, entry)], es[o].authId, k, entry.item.Key(), None)
  {
    var es' := es[o := Pushed(es[o], k, entry)];
    var xs := es'[o].Entries(k);
    assert xs[|xs| - 1] == entry;
    assert HasKey(xs, entry.item.Key(), None);
  }

  /** The edit duplicate check excludes the element being edited, so
      re-saving an element with its own key is never refused. */
  lemma ResaveNeverDuplicate(es: seq<Employee>, n: nat, user: Id, k: Kind, id: Id, p: nat)
    requires EmployeesOk(es, n) && k.Deduped()
    requires HolderOf(es, user, k, id).Some?
    requires p < |es[HolderOf(es, user, k, id).value].Entries(k)|
    requires es[HolderOf(es, user, k, id).value].Entries(k)[p].id == id
    ensures !HasDuplicate(es, user, k, es[HolderOf(es, user, k, id).value].Entries(k)[p].item.Key(), Some(id))
  {
    var o := HolderOf(es, user, k, id).value;
    var xs := es[o].Entries(k);
    var key := xs[p].item.Key();
    assert !NoEntries(es[o]) by {
      assert es[o].Entries(k) != [];
    }
    assert forall i :: 0 <= i < o ==> es[i].authId != user;
    forall i | 0 <= i < |es| && es[i].authId == user
      ensures !HasKey(es[i].Entries(k), key, Some(id))
    {
      if i == o {
        assert CollectionOk(k, xs, n);
        ResaveIsNoDuplicate(xs, p);
      } else if o < i {
        assert NoEntries(es[i]);
      }
    }
  }

  // ---------------------------------------------------------------------
  // Messages of the per-kind handlers

  function AddDuplicateMessage(k: Kind): string {
    match k
    case Education => "You have already add this to your profile"
    case Experience => "You have already added this to the profile"
    case Skills => "Skill already present"
    case Certifications => "You have already added this to your profile"
    case Languages => "You have already added this to the profile"
    case JobPreferences => ""
  }

  function AddMissingMessage(k: Kind): string {
    if k == Skills then "Employee not found" else "Employee profile not found"
  }

  function EditDuplicateMessage(k: Kind): string {
    match k
    case Education => "You have already added this to your profile"
    case Experience => "You have already added this to the profile"
    case Skills => "Skill already present"
    case Certifications => "Certification already Exist"
    case Languages => "You have already added this to your profile"
    case JobPreferences => ""
  }

  function EditMissingMessage(k: Kind): string {
    match k
    case Experience => "Employee Not Found"
    case Skills => "Skill entry not found"
    case _ => "Employee profile not found"
  }

  function DeleteMissingMessage(k: Kind): string {
    match k
    case Education => "User Not Found"
    case Experience => "Employee not found"
    case Skills => "Skill entry not found"
    case Certifications => "Employee Not Found"
    case _ => "Employee profile not found"
  }

  function DeletedMessage(k: Kind): string {
    match k
    case Education => "Education Deleted Successfully"
    case Experience => "Job experience deleted successfully"
    case Skills => "Skill deleted successfully"
    case Certifications => "Certification Deleted Successfully"
    case JobPreferences => "Job Preferences delete successfully"
    case Languages => "Language deleted successfully"
  }

  /** `setLanguage` and `editLanguage` do not pass `{new: true}`, so they
      answer with the document as it was before the update. */
  predicate AnswersOldDocument(k: Kind) {
    k == Languages
  }

  // ---------------------------------------------------------------------
  // Handlers

  /** `addEducation`, `setJobExperience`, `setSkills`, `setCertifications`,
      `setLanguage`: validate, refuse a duplicate key, then push onto the
      first profile of the caller; never create a profile. */
  method AddEntry(db: Db, user: Id, k: Kind, body: Body, parsesAsDate: string -> bool) returns (reply: Reply)
    requires db.Valid() && k.Deduped()
    modifies db`employees, db`nextId
    ensures db.Valid()
    ensures !Schema(k, body, parsesAsDate) ==>
      reply == Reply(400, Invalid) && db.employees == old(db.employees)
    ensures Schema(k, body, parsesAsDate) && HasDuplicate(old(db.employees), user, k, NewItem(k, body).Key(), None) ==>
      reply == Reply(400, Message(AddDuplicateMessage(k))) && db.employees == old(db.employees)
    ensures Schema(k, body, parsesAsDate) && !HasDuplicate(old(db.employees), user, k, NewItem(k, body).Key(), None)
            && EmployeeOf(old(db.employees), user).None? ==>
      reply == Reply(404, Message(AddMissingMessage(k))) && db.employees == old(db.employees)
    ensures Schema(k, body, parsesAsDate) && !HasDuplicate(old(db.employees), user, k, NewItem(k, body).Key(), None)
            && EmployeeOf(old(db.employees), user).Some? ==>
      var o := EmployeeOf(old(db.employees), user).value;
      db.employees == old(db.employees)[o := Pushed(old(db.employees)[o], k, Entry(old(db.nextId), NewItem(k, body)))]
      && reply == Reply(201, EmployeeDoc(if AnswersOldDocument(k) then old(db.employees)[o] else db.employees[o]))
  {
    if !Schema(k, body, parsesAsDate) {
      return Reply(400, Invalid);
    }
    var item := NewItem(k, body);
    if HasDuplicate(db.employees, user, k, item.Key(), None) {
      return Reply(400, Message(AddDuplicateMessage(k)));
    }
    var found := EmployeeOf(db.employees, user);
    if found.None? {
      return Reply(404, Message(AddMissingMessage(k)));
    }
    var o := found.value;
    var before := db.employees[o];
    assert EmployeeOk(before, db.nextId);
    assert !HasKey(before.Entries(k), item.Key(), None);
    var id := db.FreshId();
    PushKeepsProfile(before, id, k, item);
    var after := Pushed(before, k, Entry(id, item));
    db.ReplaceEmployee(o, after);
    reply := Reply(201, EmployeeDoc(if AnswersOldDocument(k) then before else after));
  }

  /** `editEducation`, `editJobExperience`, `editSkills`, `editCertificate`,
      `editJobPreferences`, `editLanguage`: check the request, refuse a key
      another element already has (job preferences have no such check),
      then overwrite the element with that id in the first profile holding
      it. When no profile holds it the answer is 404, except for
      `editCertificate`, which answers 200 with `null`. */
  method EditEntry(db: Db, user: Id, k: Kind, id: Id, body: Body, parsesAsDate: string -> bool)
    returns (reply: Reply)
    requires db.Valid()
    modifies db`employees
    ensures db.Valid()
    ensures EditCheck(k, body, parsesAsDate).Some? ==>
      reply == EditCheck(k, body, parsesAsDate).value && db.employees == old(db.employees)
    ensures EditCheck(k, body, parsesAsDate).None? && k.Deduped()
            && HasDuplicate(old(db.employees), user, k, EditKey(k, body), Some(id)) ==>
      reply == Reply(400, Message(EditDuplicateMessage(k))) && db.employees == old(db.employees)
    ensures EditCheck(k, body, parsesAsDate).None?
            && !(k.Deduped() && HasDuplicate(old(db.employees), user, k, EditKey(k, body), Some(id)))
            && UpdateCastFails(k, body) ==>
      reply == Reply(500, ServerError) && db.employees == old(db.employees)
    ensures EditCheck(k, body, parsesAsDate).None?
            && !(k.Deduped() && HasDuplicate(old(db.employees), user, k, EditKey(k, body), Some(id)))
            && !UpdateCastFails(k, body) && HolderOf(old(db.employees), user, k, id).None? ==>
      db.employees == old(db.employees)
      && reply == if k == Certifications then Reply(200, NoDoc) else Reply(404, Message(EditMissingMessage(k)))
    ensures EditCheck(k, body, parsesAsDate).None?
            && !(k.Deduped() && HasDuplicate(old(db.employees), user, k, EditKey(k, body), Some(id)))
            && !UpdateCastFails(k, body) && HolderOf(old(db.employees), user, k, id).Some? ==>
      var o := HolderOf(old(db.employees), user, k, id).value;
      var item := EditedItem(k, body, EntryWithId(old(db.employees)[o].Entries(k), id).item);
      db.employees == old(db.employees)[o := Overwritten(old(db.employees)[o], k, id, item)]
      && reply == Reply(200, EmployeeDoc(if AnswersOldDocument(k) then old(db.employees)[o] else db.employees[o]))
  {
    var rejected := EditCheck(k, body, parsesAsDate);
    if rejected.Some? {
      return rejected.value;
    }
    var key := EditKey(k, body);
    if k.Deduped() && HasDuplicate(db.employees, user, k, key, Some(id)) {
      return Reply(400, Message(EditDuplicateMessage(k)));
    }
    if UpdateCastFails(k, body) {
      return Reply(500, ServerError);
    }
    var found := HolderOf(db.employees, user, k, id);
    if found.None? {
      if k == Certifications {
        return Reply(200, NoDoc);
      }
      return Reply(404, Message(EditMissingMessage(k)));
    }
    var o := found.value;
    var before := db.employees[o];
    var current := EntryWithId(before.Entries(k), id);
    var item := EditedItem(k, body, current.item);
    assert EmployeeOk(before, db.nextId);
    assert k.Deduped() ==> !HasKey(before.Entries(k), item.Key(), Some(id));
    OverwriteKeepsProfile(before, db.nextId, k, id, item);
    var after := Overwritten(before, k, id, item);
    assert !NoEntries(before) by {
      assert before.Entries(k) != [];
    }
    db.ReplaceEmployee(o, after);
    reply := Reply(200, EmployeeDoc(if AnswersOldDocument(k) then before else after));
  }

  /** `deleteEducation`, `deleteJobExperience`, `deleteSkills`,
      `deleteCertificate`, `deleteJobPreferences`, `deleteLanguage`: pull
      the element with that id from the first profile holding it, or
      answer 404. */
  method DeleteEntry(db: Db, user: Id, k: Kind, id: Id) returns (reply: Reply)
    requires db.Valid()
    modifies db`employees
    ensures db.Valid()
    ensures HolderOf(old(db.employees), user, k, id).None? ==>
      reply == Reply(404, Message(DeleteMissingMessage(k))) && db.employees == old(db.employees)
    ensures HolderOf(old(db.employees), user, k, id).Some? ==>
      var o := HolderOf(old(db.employees), user, k, id).value;
      db.employees == old(db.employees)[o := Pulled(old(db.employees)[o], k, id)]
      && reply == Reply(200, Message(DeletedMessage(k)))
  {
    var found := HolderOf(db.employees, user, k, id);
    if found.None? {
      return Reply(404, Message(DeleteMissingMessage(k)));
    }
    var o := found.value;
    var before := db.employees[o];
    assert EmployeeOk(before, db.nextId);
    PullKeepsProfile(before, db.nextId, k, id);
    var after := Pulled(before, k, id);
    assert !NoEntries(before) by {
      assert before.Entries(k) != [];
    }
    db.ReplaceEmployee(o, after);
    reply := Reply(200, Message(DeletedMessage(k)));
  }

  // ---------------------------------------------------------------------
  // Profile upsert

  /** The fields `setProfile` sets; `None` for a field the body leaves out. */
  datatype ProfileFields = ProfileFields(userName: Option<string>, phone: Option<string>, location: Option<Location>)

  /** The `location` object `setProfile` builds from the body's; `None` when
      Mongoose cannot cast `relocation` to a boolean. */
  function LocationOf(v: Json): (r: Option<Location>)
    ensures r.Some? && v.JObj? ==>
      r.value.country == OptStr(v.fields, "country") && r.value.street == OptStr(v.fields, "street")
      && r.value.cityState == OptStr(v.fields, "cityState") && r.value.area == OptStr(v.fields, "area")
      && r.value.pincode == OptStr(v.fields, "pincode")
    ensures v.JObj? && "relocation" in v.fields ==> (r.Some? <==> CastBoolean(v.fields["relocation"]).Some?)
    ensures r.Some? && v.JObj? && "relocation" in v.fields ==> r.value.relocation == CastBoolean(v.fields["relocation"])
    ensures !(v.JObj? && "relocation" in v.fields) ==> r.Some? && r.value.relocation.None?
  {
    var f := if v.JObj? then v.fields else map[];
    var relocation := if "relocation" in f then CastBoolean(f["relocation"]) else None;
    if "relocation" in f && relocation.None? then None
    else Some(Location(OptStr(f, "country"), OptStr(f, "street"), OptStr(f, "cityState"),
                       OptStr(f, "area"), OptStr(f, "pincode"), relocation))
  }

  function ProfileFieldsOf(b: Body): (r: Option<ProfileFields>)
    ensures "location" !in b ==> r == Some(ProfileFields(OptStr(b, "userName"), OptStr(b, "phone"), None))
    ensures "location" in b ==> (r.None? <==> LocationOf(b["location"]).None?)
    ensures "location" in b && r.Some? ==>
      r.value == ProfileFields(OptStr(b, "userName"), OptStr(b, "phone"), LocationOf(b["location"]))
  {
    if "location" in b then
      match LocationOf(b["location"])
      case None => None
      case Some(loc) => Some(ProfileFields(OptStr(b, "userName"), OptStr(b, "phone"), Some(loc)))
    else Some(ProfileFields(OptStr(b, "userName"), OptStr(b, "phone"), None))
  }

  /** `$set: {userName, phone[, location]}` on a profile: Mongoose drops the
      `undefined` values, so an omitted field keeps its value; `location` is
      replaced as a whole when the body carries one. The arrays, the
      applied jobs and the ids are untouched. */
  function WithProfile(e: Employee, f: ProfileFields): (r: Employee)
    ensures r.userName == (if f.userName.Some? then f.userName else e.userName)
    ensures r.phone == (if f.phone.Some? then f.phone else e.phone)
    ensures r.location == (if f.location.Some? then f.location else e.location)
    ensures forall k :: r.Entries(k) == e.Entries(k)
    ensures r.id == e.id && r.authId == e.authId && r.appliedJobs == e.appliedJobs && r.resumeUrl == e.resumeUrl
  {
    e.(userName := if f.userName.Some? then f.userName else e.userName,
       phone := if f.phone.Some? then f.phone else e.phone,
       location := if f.location.Some? then f.location else e.location)
  }

  /** The upsert of `setProfile`: `$set` on the caller's first profile, or
      a new profile with the next id carrying the sent fields. */
  method UpsertProfile(db: Db, user: Id, f: ProfileFields) returns (reply: Reply)
    requires db.Valid()
    modifies db`employees, db`nextId
    ensures db.Valid()
    ensures match EmployeeOf(old(db.employees), user)
      case Some(o) =>
        db.employees == old(db.employees)[o := WithProfile(old(db.employees)[o], f)]
        && reply == Reply(201, EmployeeDoc(db.employees[o]))
      case None =>
        db.employees == old(db.employees) + [WithProfile(NewEmployee(old(db.nextId), user), f)]
        && reply == Reply(201, EmployeeDoc(db.employees[|old(db.employees)|]))
  {
    var found := EmployeeOf(db.employees, user);
    if found.Some? {
      var o := found.value;
      var after := WithProfile(db.employees[o], f);
      assert EmployeeOk(db.employees[o], db.nextId);
      db.ReplaceEmployee(o, after);
      reply := Reply(201, EmployeeDoc(after));
    } else {
      var id := db.FreshId();
      var created := WithProfile(NewEmployee(id, user), f);
      ConsistentGrows(db.accounts, db.employees, db.employers, db.jobs, id);
      EmployeeAppended(db.employees, db.jobs, id, created);
      db.employees := db.employees + [created];
      reply := Reply(201, EmployeeDoc(created));
    }
  }

  /** `setProfile`: validate, then upsert the caller's first profile. */
  method SetProfile(db: Db, user: Id, body: Body) returns (reply: Reply)
    requires db.Valid()
    modifies db`employees, db`nextId
    ensures db.Valid()
    ensures !ProfileSchema(body) ==> reply == Reply(400, Invalid) && db.employees == old(db.employees)
    ensures ProfileSchema(body) && ProfileFieldsOf(body).None? ==>
      reply == Reply(500, ServerError) && db.employees == old(db.employees)
    ensures ProfileSchema(body) && ProfileFieldsOf(body).Some? ==>
      var f := ProfileFieldsOf(body).value;
      match EmployeeOf(old(db.employees), user)
      case Some(o) =>
        db.employees == old(db.employees)[o := WithProfile(old(db.employees)[o], f)]
        && reply == Reply(201, EmployeeDoc(db.employees[o]))
      case None =>
        db.employees == old(db.employees) + [WithProfile(NewEmployee(old(db.nextId), user), f)]
        && reply == Reply(201, EmployeeDoc(db.employees[|old(db.employees)|]))
  {
    if !ProfileSchema(body) {
      return Reply(400, Invalid);
    }
    var fields := ProfileFieldsOf(body);
    if fields.None? {
      return Reply(500, ServerError);
    }
    reply := UpsertProfile(db, user, fields.value);
  }
}
