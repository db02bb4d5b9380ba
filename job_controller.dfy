/** The job handlers (Controllers/jobController.js): an employer creates,
    updates and deletes its postings, anyone lists the active ones, and an
    employee applies. */
module JobController {
  import opened Base
  import opened Joi
  import opened JobModel
  import opened JobKey
  import opened Store
  import opened Http
  import EmployerModel

  /** `jobValidation` and `updateJobValidation`, which are the same rules. */
  predicate JobSchema(b: Body) {
    OnlyKeys(b, {"title", "description", "type", "experience", "location", "salaryRange", "skills"})
    && "title" in b && IsString(b["title"], false, true)
    && ("description" in b ==> IsString(b["description"], true, false))
    && "type" in b && IsArrayOfChoices(b["type"], JobTypes, true)
    && ("experience" in b ==> IsString(b["experience"], false, false))
    && ("location" in b ==> IsString(b["location"], true, false))
    && ("salaryRange" in b ==> IsString(b["salaryRange"], true, false))
    && ("skills" in b ==> IsArrayOfStrings(b["skills"], true))
  }

  /** What the `trim: true` setter stores for an optional string. */
  function Trimmed(v: Option<string>): (r: Option<string>)
    ensures v.None? <==> r.None?
    ensures v.Some? ==> r.value == Trim(v.value)
    ensures r.Some? ==> r.value == [] || (!IsSpace(r.value[0]) && !IsSpace(r.value[|r.value| - 1]))
  {
    match v
    case Some(s) => TrimShape(s); Some(Trim(s))
    case None => None
  }

  /** What the `trim: true, lowercase: true` setters store for an optional
      string. */
  function Normalized(v: Option<string>): (r: Option<string>)
    ensures v.None? <==> r.None?
    ensures v.Some? ==> r.value == Normalize(v.value) && Normal(r.value)
  {
    match v
    case Some(s) => Some(Normalize(s))
    case None => None
  }

  /** The document `Job.create` stores: the title normalised (the handler
      and the schema setters agree on it), the other strings through their
      setters, `salaryRange || "Not Disclosed"`, `skills || []`, no
      applicants, active. */
  function NewJob(id: Id, b: Body, employerId: Id, jobKey: string): (job: Job)
    ensures job.id == id && job.employerId == employerId && job.jobKey == jobKey
    ensures job.title == Normalize(StrAt(b, "title")) && Normal(job.title)
    ensures job.applicants == [] && job.isActive
    ensures job.salaryRange.Some? && (OptStr(b, "salaryRange") == Some([]) ==> job.salaryRange == Some(Trim("Not Disclosed")))
    ensures OptStr(b, "salaryRange").None? ==> job.salaryRange == Some(Trim("Not Disclosed"))
    ensures OptStr(b, "salaryRange").Some? && OptStr(b, "salaryRange").value != [] ==>
      job.salaryRange == Some(Trim(OptStr(b, "salaryRange").value))
    ensures OptStr(b, "experience").None? ==> job.experience.None?
    ensures OptStr(b, "experience").Some? ==> job.experience == Some(Trim(OptStr(b, "experience").value))
    ensures job.types == StringsAt(b, "type")
    ensures job.skills == StringsAt(b, "skills") && ("skills" !in b ==> job.skills == [])
    ensures "location" !in b ==> job.location.None?
    ensures OptStr(b, "location").Some? ==> job.location == Some(Normalize(OptStr(b, "location").value))
    ensures job.location.Some? ==> Normal(job.location.value)
    ensures "description" !in b ==> job.description.None?
    ensures OptStr(b, "description").Some? ==> job.description == Some(Trim(OptStr(b, "description").value))
  {
    Job(id, Normalize(StrAt(b, "title")), Trimmed(OptStr(b, "description")), StringsAt(b, "type"),
        Trimmed(OptStr(b, "experience")), Normalized(OptStr(b, "location")),
        Some(Trim(OrElse(OptStr(b, "salaryRange"), "Not Disclosed"))), StringsAt(b, "skills"),
        employerId, [], jobKey, true)
  }

  /** `$set: req.body` through the setters: the keys the body carries are
      overwritten, the others keep their values; id, owner, key, applicants
      and `isActive` are never in a valid body. */
  function UpdatedJob(job: Job, b: Body): (r: Job)
    ensures r.id == job.id && r.employerId == job.employerId && r.jobKey == job.jobKey
    ensures r.applicants == job.applicants && r.isActive == job.isActive
    ensures r.title == Normalize(StrAt(b, "title")) && Normal(r.title)
    ensures "description" !in b ==> r.description == job.description
    ensures "experience" !in b ==> r.experience == job.experience
    ensures "location" !in b ==> r.location == job.location
    ensures "salaryRange" !in b ==> r.salaryRange == job.salaryRange
    ensures "skills" !in b ==> r.skills == job.skills
    ensures "type" in b ==> r.types == StringsAt(b, "type")
    ensures "skills" in b ==> r.skills == StringsAt(b, "skills")
    ensures "location" in b ==> r.location == Normalized(OptStr(b, "location"))
    ensures "description" in b ==> r.description == Trimmed(OptStr(b, "description"))
    ensures "experience" in b ==> r.experience == Trimmed(OptStr(b, "experience"))
    ensures "salaryRange" in b ==> r.salaryRange == Trimmed(OptStr(b, "salaryRange"))
  {
    Job(job.id, Normalize(StrAt(b, "title")),
        if "description" in b then Trimmed(OptStr(b, "description")) else job.description,
        if "type" in b then StringsAt(b, "type") else job.types,
        if "experience" in b then Trimmed(OptStr(b, "experience")) else job.experience,
        if "location" in b then Normalized(OptStr(b, "location")) else job.location,
        if "salaryRange" in b then Trimmed(OptStr(b, "salaryRange")) else job.salaryRange,
        if "skills" in b then StringsAt(b, "skills") else job.skills,
        job.employerId, job.applicants, job.jobKey, job.isActive)
  }

  /** `Job.findOne({employerId, title})`, optionally with `_id: {$ne: except}`. */
  predicate TitleTaken(jobs: seq<Job>, employerId: Id, title: string, except: Option<Id>) {
    exists i :: 0 <= i < |jobs| && jobs[i].employerId == employerId && jobs[i].title == title
                && (except.None? || jobs[i].id != except.value)
  }

  predicate KeyTaken(jobs: seq<Job>, jobKey: string) {
    exists i :: 0 <= i < |jobs| && jobs[i].jobKey == jobKey
  }

  /** `Job.findOne({_id: id, employerId})`. */
  function OwnedJob(jobs: seq<Job>, id: Id, employerId: Id): (r: Option<nat>)
    ensures r.Some? ==> r.value < |jobs| && jobs[r.value].id == id && jobs[r.value].employerId == employerId
    ensures r.None? <==> forall i :: 0 <= i < |jobs| ==> !(jobs[i].id == id && jobs[i].employerId == employerId)
  {
    FirstIndex(jobs, (j: Job) => j.id == id && j.employerId == employerId)
  }

  /** The update's duplicate check excludes the job itself, and ids are
      distinct, so no other job of the owner has the new title. */
  lemma RetitleKeepsTitlesApart(jobs: seq<Job>, n: nat, p: nat, owner: Id, title: string)
    requires JobsOk(jobs, n) && p < |jobs|
    requires !TitleTaken(jobs, owner, title, Some(jobs[p].id))
    ensures forall i :: 0 <= i < |jobs| && i != p ==> !(jobs[i].employerId == owner && jobs[i].title == title)
  {
    forall i | 0 <= i < |jobs| && i != p
      ensures jobs[i].id != jobs[p].id
    {
      if i < p {
        assert JobsApart(jobs[i], jobs[p]);
      } else {
        assert JobsApart(jobs[p], jobs[i]);
      }
    }
  }

  /** `createJob`. `now` is `Date.now()`. A key another job already has makes
      the unique index refuse the insert. */
  method CreateJob(db: Db, user: Id, body: Body, now: nat) returns (reply: Reply)
    requires db.Valid()
    modifies db`jobs, db`employers, db`nextId
    ensures db.Valid()
    ensures !JobSchema(body) ==>
      reply == Reply(400, Invalid) && db.jobs == old(db.jobs) && db.employers == old(db.employers)
    ensures JobSchema(body) && EmployerOf(old(db.employers), user).None? ==>
      reply == Reply(404, Message("Employer profile not found"))
      && db.jobs == old(db.jobs) && db.employers == old(db.employers)
    ensures JobSchema(body) && EmployerOf(old(db.employers), user).Some? ==>
      var e := EmployerOf(old(db.employers), user).value;
      var title := Normalize(StrAt(body, "title"));
      var jobKey := MakeJobKey(StrAt(body, "title"), now);
      if TitleTaken(old(db.jobs), old(db.employers)[e].id, title, None) then
        reply == Reply(400, Message("Job already exists")) && db.jobs == old(db.jobs)
        && db.employers == old(db.employers)
      else if KeyTaken(old(db.jobs), jobKey) then
        reply == Reply(500, ServerError) && db.jobs == old(db.jobs) && db.employers == old(db.employers)
      else
        var job := NewJob(old(db.nextId), body, old(db.employers)[e].id, jobKey);
        db.jobs == old(db.jobs) + [job]
        && db.employers == old(db.employers)[e := old(db.employers)[e].(jobPosted := AddToSet(old(db.employers)[e].jobPosted, job.id))]
        && reply == Reply(201, EmployerDoc(db.employers[e]))
  {
    if !JobSchema(body) {
      return Reply(400, Invalid);
    }
    var found := EmployerOf(db.employers, user);
    if found.None? {
      return Reply(404, Message("Employer profile not found"));
    }
    var e := found.value;
    var owner := db.employers[e].id;
    var title := Normalize(StrAt(body, "title"));
    if TitleTaken(db.jobs, owner, title, None) {
      return Reply(400, Message("Job already exists"));
    }
    var jobKey := MakeJobKey(StrAt(body, "title"), now);
    if KeyTaken(db.jobs, jobKey) {
      return Reply(500, ServerError);
    }
    var job := NewJob(db.nextId, body, owner, jobKey);
    db.AppendJob(e, job);
    reply := Reply(201, EmployerDoc(db.employers[e]));
  }

  /** `updateJob`. */
  method UpdateJob(db: Db, user: Id, id: Id, body: Body) returns (reply: Reply)
    requires db.Valid()
    modifies db`jobs
    ensures db.Valid()
    ensures !JobSchema(body) ==> reply == Reply(400, Invalid) && db.jobs == old(db.jobs)
    ensures JobSchema(body) && EmployerOf(db.employers, user).None? ==>
      reply == Reply(404, Message("Employer not found")) && db.jobs == old(db.jobs)
    ensures JobSchema(body) && EmployerOf(db.employers, user).Some? ==>
      UpdatedOwned(old(db.jobs), db.jobs, db.employers, EmployerOf(db.employers, user).value, id, body, reply)
  {
    if !JobSchema(body) {
      return Reply(400, Invalid);
    }
    var found := EmployerOf(db.employers, user);
    if found.None? {
      return Reply(404, Message("Employer not found"));
    }
    reply := UpdateOwnedJob(db, found.value, id, body);
  }

  /** What `updateJob` does once it knows the caller's employer `e`: the
      duplicate-title check comes before the lookup of the job itself. */
  ghost predicate UpdatedOwned(before: seq<Job>, after: seq<Job>, employers: seq<EmployerModel.Employer>,
                               e: nat, id: Id, body: Body, reply: Reply)
    requires e < |employers|
  {
    var owner := employers[e].id;
    if TitleTaken(before, owner, Normalize(StrAt(body, "title")), Some(id)) then
      reply == Reply(400, Message("Duplicate job title")) && after == before
    else match OwnedJob(before, id, owner)
      case None => reply == Reply(404, Message("Job not found")) && after == before
      case Some(p) =>
        after == before[p := UpdatedJob(before[p], body)] && reply == Reply(200, EmployerDoc(employers[e]))
  }

  method UpdateOwnedJob(db: Db, e: nat, id: Id, body: Body) returns (reply: Reply)
    requires db.Valid() && e < |db.employers|
    modifies db`jobs
    ensures db.Valid()
    ensures UpdatedOwned(old(db.jobs), db.jobs, db.employers, e, id, body, reply)
  {
    var owner := db.employers[e].id;
    if TitleTaken(db.jobs, owner, Normalize(StrAt(body, "title")), Some(id)) {
      return Reply(400, Message("Duplicate job title"));
    }
    var p := OwnedJob(db.jobs, id, owner);
    if p.None? {
      return Reply(404, Message("Job not found"));
    }
    var job := UpdatedJob(db.jobs[p.value], body);
    assert db.jobs[p.value].id == id;
    RetitleKeepsTitlesApart(db.jobs, db.nextId, p.value, owner, job.title);
    db.ReplaceJob(p.value, job);
    reply := Reply(200, EmployerDoc(db.employers[e]));
  }

  /** `deleteJob`: only the owner can delete; the id leaves its `jobPosted`.
      Applicants keep the id in their `appliedJobs`. */
  method DeleteJob(db: Db, user: Id, id: Id) returns (reply: Reply)
    requires db.Valid()
    modifies db`jobs, db`employers
    ensures db.Valid()
    ensures EmployerOf(old(db.employers), user).None? ==>
      reply == Reply(404, Message("Employer not found")) && db.jobs == old(db.jobs) && db.employers == old(db.employers)
    ensures EmployerOf(old(db.employers), user).Some? ==>
      var e := EmployerOf(old(db.employers), user).value;
      match OwnedJob(old(db.jobs), id, old(db.employers)[e].id)
      case None =>
        reply == Reply(404, Message("Job not found")) && db.jobs == old(db.jobs) && db.employers == old(db.employers)
      case Some(p) =>
        db.jobs == old(db.jobs)[..p] + old(db.jobs)[p + 1..]
        && db.employers == old(db.employers)[e := old(db.employers)[e].(jobPosted := Pull(old(db.employers)[e].jobPosted, id))]
        && reply == Reply(200, EmployerDoc(db.employers[e]))
  {
    var found := EmployerOf(db.employers, user);
    if found.None? {
      return Reply(404, Message("Employer not found"));
    }
    var e := found.value;
    var p := OwnedJob(db.jobs, id, db.employers[e].id);
    if p.None? {
      return Reply(404, Message("Job not found"));
    }
    db.RemoveJob(e, p.value);
    reply := Reply(200, EmployerDoc(db.employers[e]));
  }

  /** `applyJob`: the caller's first profile and the job list each other. */
  method ApplyJob(db: Db, user: Id, id: Id) returns (reply: Reply)
    requires db.Valid()
    modifies db`jobs, db`employees
    ensures db.Valid()
    ensures EmployeeOf(old(db.employees), user).None? ==>
      reply == Reply(404, Message("Employee not found")) && db.jobs == old(db.jobs) && db.employees == old(db.employees)
    ensures EmployeeOf(old(db.employees), user).Some? ==>
      var o := EmployeeOf(old(db.employees), user).value;
      if id in old(db.employees)[o].appliedJobs then
        reply == Reply(400, Message("You have already applied to this job"))
        && db.jobs == old(db.jobs) && db.employees == old(db.employees)
      else match JobById(old(db.jobs), id)
        case None =>
          reply == Reply(404, Message("Job not found")) && db.jobs == old(db.jobs) && db.employees == old(db.employees)
        case Some(j) =>
          reply == Reply(200, Message("Applied successfully"))
          && db.employees == old(db.employees)[o := old(db.employees)[o].(appliedJobs := old(db.employees)[o].appliedJobs + [id])]
          && db.jobs == old(db.jobs)[j := old(db.jobs)[j].(applicants := AddToSet(old(db.jobs)[j].applicants, old(db.employees)[o].id))]
  {
    var found := EmployeeOf(db.employees, user);
    if found.None? {
      return Reply(404, Message("Employee not found"));
    }
    var o := found.value;
    if id in db.employees[o].appliedJobs {
      return Reply(400, Message("You have already applied to this job"));
    }
    var j := JobById(db.jobs, id);
    if j.None? {
      return Reply(404, Message("Job not found"));
    }
    db.RecordApplication(o, j.value);
    reply := Reply(200, Message("Applied successfully"));
  }

  /** One element of the `getAllJobs` answer. */
  function Summary(job: Job): JobSummary {
    JobSummary(job.id, job.title, job.description, job.types, job.experience, job.location,
               job.salaryRange, job.skills, job.jobKey, job.isActive, |job.applicants|)
  }

  /** `getAllJobs`: `Job.find({isActive: true})` sorted newest first. Jobs are
      kept in creation order, so the answer walks them from the end; jobs
      created in the same millisecond come out in reverse creation order,
      one of the orders the sort allows. */
  function Listing(jobs: seq<Job>): (r: seq<JobSummary>)
    ensures |r| <= |jobs|
    ensures forall x :: 0 <= x < |r| ==> r[x].isActive
  {
    if jobs == [] then []
    else
      var last := jobs[|jobs| - 1];
      (if last.isActive then [Summary(last)] else []) + Listing(jobs[..|jobs| - 1])
  }

  /** Every listed job is an active job of the collection. */
  lemma {:induction false} ListingSound(jobs: seq<Job>, x: nat)
    requires x < |Listing(jobs)|
    ensures exists j :: 0 <= j < |jobs| && jobs[j].isActive && Listing(jobs)[x] == Summary(jobs[j])
  {
    var init := jobs[..|jobs| - 1];
    var last := jobs[|jobs| - 1];
    if last.isActive && x == 0 {
      assert Listing(jobs)[0] == Summary(jobs[|jobs| - 1]);
    } else {
      var d := if last.isActive then 1 else 0;
      assert Listing(jobs)[x] == Listing(init)[x - d];
      ListingSound(init, x - d);
      var j :| 0 <= j < |init| && init[j].isActive && Listing(init)[x - d] == Summary(init[j]);
      assert init[j] == jobs[j];
    }
  }

  /** Every active job is listed. */
  lemma {:induction false} ListingComplete(jobs: seq<Job>, j: nat)
    requires j < |jobs| && jobs[j].isActive
    ensures Summary(jobs[j]) in Listing(jobs)
  {
    var init := jobs[..|jobs| - 1];
    if j < |jobs| - 1 {
      assert init[j] == jobs[j];
      ListingComplete(init, j);
    }
  }

  /** Of two active jobs, the one created later is listed first. The sort on
      `createdAt` promises this for jobs created in different milliseconds;
      for a tie this is the order the model picks. */
  lemma {:induction false} ListingNewestFirst(jobs: seq<Job>, a: nat, b: nat)
    requires a < b < |jobs| && jobs[a].isActive && jobs[b].isActive
    ensures exists x, y :: 0 <= x < y < |Listing(jobs)|
                           && Listing(jobs)[x] == Summary(jobs[b]) && Listing(jobs)[y] == Summary(jobs[a])
  {
    var init := jobs[..|jobs| - 1];
    var r := Listing(jobs);
    assert init[a] == jobs[a];
    if b == |jobs| - 1 {
      ListingComplete(init, a);
      var y :| 0 <= y < |Listing(init)| && Listing(init)[y] == Summary(jobs[a]);
      assert r[0] == Summary(jobs[b]) && r[y + 1] == Summary(jobs[a]);
    } else {
      assert init[b] == jobs[b];
      ListingNewestFirst(init, a, b);
      var x, y :| 0 <= x < y < |Listing(init)|
                  && Listing(init)[x] == Summary(jobs[b]) && Listing(init)[y] == Summary(jobs[a]);
      var d := if jobs[|jobs| - 1].isActive then 1 else 0;
      assert r[x + d] == Summary(jobs[b]) && r[y + d] == Summary(jobs[a]);
    }
  }
}
