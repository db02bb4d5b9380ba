/** The database the controllers talk to: the four collections, each kept
    in natural (insertion) order so that `findOne` is "the first match",
    and a counter standing for ObjectId generation. `Consistent` is what
    every handler keeps true. */
module Store {
  import opened Base
  import opened AuthModel
  import opened EmployeeModel
  import EmployerModel
  import opened JobModel
  import opened SubResource

  type Employer = EmployerModel.Employer

  // ---------------------------------------------------------------------
  // Lookups (`findOne` / `findById`)

  function AccountById(accounts: seq<Account>, id: Id): (r: Option<nat>)
    ensures r.Some? ==> r.value < |accounts| && accounts[r.value].id == id
    ensures r.None? <==> forall i :: 0 <= i < |accounts| ==> accounts[i].id != id
  {
    FirstIndex(accounts, (a: Account) => a.id == id)
  }

  function AccountByEmail(accounts: seq<Account>, email: string): (r: Option<nat>)
    ensures r.Some? ==> r.value < |accounts| && accounts[r.value].email == email
    ensures r.None? <==> forall i :: 0 <= i < |accounts| ==> accounts[i].email != email
  {
    FirstIndex(accounts, (a: Account) => a.email == email)
  }

  function AccountByGoogleId(accounts: seq<Account>, googleId: string): (r: Option<nat>)
    ensures r.Some? ==> r.value < |accounts| && accounts[r.value].googleId == Some(googleId)
    ensures r.None? <==> forall i :: 0 <= i < |accounts| ==> accounts[i].googleId != Some(googleId)
  {
    FirstIndex(accounts, (a: Account) => a.googleId == Some(googleId))
  }

  /** `Employee.findOne({authId})`: the first profile of an account. */
  function EmployeeOf(employees: seq<Employee>, authId: Id): (r: Option<nat>)
    ensures r.Some? ==> r.value < |employees| && employees[r.value].authId == authId
    ensures r.Some? ==> forall i :: 0 <= i < r.value ==> employees[i].authId != authId
    ensures r.None? <==> forall i :: 0 <= i < |employees| ==> employees[i].authId != authId
  {
    FirstIndex(employees, (e: Employee) => e.authId == authId)
  }

  /** `Employer.findOne({authId})`. */
  function EmployerOf(employers: seq<Employer>, authId: Id): (r: Option<nat>)
    ensures r.Some? ==> r.value < |employers| && employers[r.value].authId == authId
    ensures r.None? <==> forall i :: 0 <= i < |employers| ==> employers[i].authId != authId
  {
    FirstIndex(employers, (e: Employer) => e.authId == authId)
  }

  function JobById(jobs: seq<Job>, id: Id): (r: Option<nat>)
    ensures r.Some? ==> r.value < |jobs| && jobs[r.value].id == id
    ensures r.None? <==> forall i :: 0 <= i < |jobs| ==> jobs[i].id != id
  {
    FirstIndex(jobs, (j: Job) => j.id == id)
  }

  predicate HasJob(jobs: seq<Job>, id: Id) {
    exists i :: 0 <= i < |jobs| && jobs[i].id == id
  }

  // ---------------------------------------------------------------------
  // What the collections satisfy; `n` is the next unused ObjectId

  /** Ids below `n`, distinct ids and distinct e-mail addresses (the
      `unique` index), distinct Google ids, and one of the two account
      shapes. */
  predicate AccountsOk(accounts: seq<Account>, n: nat) {
    (forall i :: 0 <= i < |accounts| ==> accounts[i].id < n && WellFormed(accounts[i]))
    && (forall i, j :: 0 <= i < j < |accounts| ==>
          accounts[i].id != accounts[j].id && accounts[i].email != accounts[j].email
          && (accounts[i].googleId.Some? ==> accounts[i].googleId != accounts[j].googleId))
  }

  /** Every sub-resource array is well formed and the applied jobs form a set. */
  predicate EmployeeOk(e: Employee, n: nat) {
    e.id < n
    && (forall k: Kind :: CollectionOk(k, e.Entries(k), n))
    && NoDup(e.appliedJobs)
    && (forall x :: x in e.appliedJobs ==> x < n)
  }

  predicate NoEntries(e: Employee) {
    forall k: Kind :: e.Entries(k) == []
  }

  /** Profile ids are distinct. `authId` is not unique, but only the first
      profile of an account ever receives sub-resource entries: every `$push`
      goes to the document `findOne({authId})` returns. */
  predicate EmployeesOk(employees: seq<Employee>, n: nat) {
    (forall i :: 0 <= i < |employees| ==> EmployeeOk(employees[i], n))
    && (forall i, j :: 0 <= i < j < |employees| ==> employees[i].id != employees[j].id)
    && (forall i, j :: 0 <= i < j < |employees| && employees[i].authId == employees[j].authId ==>
          NoEntries(employees[j]))
  }

  /** One employer per account: every employer is created by an upsert
      keyed on `authId`. */
  predicate EmployersOk(employers: seq<Employer>, n: nat) {
    (forall i :: 0 <= i < |employers| ==> employers[i].id < n && NoDup(employers[i].jobPosted))
    && (forall i, j :: 0 <= i < j < |employers| ==>
          employers[i].id != employers[j].id && employers[i].authId != employers[j].authId)
  }

  predicate JobOk(job: Job, n: nat) {
    job.id < n && job.employerId < n && Normal(job.title)
    && NoDup(job.applicants) && (forall a :: a in job.applicants ==> a < n)
  }

  /** Two stored jobs differ in id and in `jobKey` (the unique index), and
      do not share both owner and title. */
  predicate JobsApart(a: Job, b: Job) {
    a.id != b.id && a.jobKey != b.jobKey && !(a.employerId == b.employerId && a.title == b.title)
  }

  /** Titles are stored normalised, `jobKey` is unique, and no employer has
      two jobs with the same title. */
  predicate JobsOk(jobs: seq<Job>, n: nat) {
    (forall i :: 0 <= i < |jobs| ==> JobOk(jobs[i], n))
    && (forall i, j :: 0 <= i < j < |jobs| ==> JobsApart(jobs[i], jobs[j]))
  }

  /** The two sides of an application agree: a profile is among a job's
      applicants exactly when the job is among the profile's applied jobs. */
  predicate ApplicationsInStep(jobs: seq<Job>, employees: seq<Employee>) {
    forall j, i :: 0 <= j < |jobs| && 0 <= i < |employees| ==>
      (employees[i].id in jobs[j].applicants <==> jobs[j].id in employees[i].appliedJobs)
  }

  /** `jobPosted` lists exactly the employer's jobs... */
  predicate PostingsMatch(employers: seq<Employer>, jobs: seq<Job>) {
    forall e, j :: 0 <= e < |employers| && 0 <= j < |jobs| ==>
      (jobs[j].id in employers[e].jobPosted <==> jobs[j].employerId == employers[e].id)
  }

  /** ...and only jobs that exist. */
  predicate PostingsExist(employers: seq<Employer>, jobs: seq<Job>) {
    forall e, x :: 0 <= e < |employers| && x in employers[e].jobPosted ==> HasJob(jobs, x)
  }

  predicate PostingsInStep(employers: seq<Employer>, jobs: seq<Job>) {
    PostingsMatch(employers, jobs) && PostingsExist(employers, jobs)
  }

  predicate Consistent(accounts: seq<Account>, employees: seq<Employee>, employers: seq<Employer>,
                       jobs: seq<Job>, n: nat) {
    AccountsOk(accounts, n) && EmployeesOk(employees, n) && EmployersOk(employers, n)
    && JobsOk(jobs, n) && ApplicationsInStep(jobs, employees) && PostingsInStep(employers, jobs)
  }

  // ---------------------------------------------------------------------
  // How each kind of write keeps `Consistent`

  /** Handing out an id keeps everything consistent. */
  lemma ConsistentGrows(accounts: seq<Account>, employees: seq<Employee>, employers: seq<Employer>,
                        jobs: seq<Job>, n: nat)
    requires Consistent(accounts, employees, employers, jobs, n)
    ensures Consistent(accounts, employees, employers, jobs, n + 1)
  {
    forall i | 0 <= i < |employees|
      ensures EmployeeOk(employees[i], n + 1)
    {
      var e := employees[i];
      forall k: Kind
        ensures CollectionOk(k, e.Entries(k), n + 1)
      {
        assert CollectionOk(k, e.Entries(k), n);
      }
    }
  }

  /** Replacing profile `o` by one with the same id, account and applied
      jobs, whose arrays are well formed and which either has no entries or
      is the first profile of its account. */
  lemma EmployeeReplaced(employees: seq<Employee>, jobs: seq<Job>, n: nat, o: nat, e: Employee)
    requires EmployeesOk(employees, n) && ApplicationsInStep(jobs, employees)
    requires o < |employees| && e.id == employees[o].id && e.authId == employees[o].authId
    requires e.appliedJobs == employees[o].appliedJobs
    requires forall k: Kind :: CollectionOk(k, e.Entries(k), n)
    requires NoEntries(e) || forall i :: 0 <= i < o ==> employees[i].authId != e.authId
    ensures EmployeesOk(employees[o := e], n) && ApplicationsInStep(jobs, employees[o := e])
  {
    var es := employees[o := e];
    forall i, j | 0 <= i < j < |es| && es[i].authId == es[j].authId
      ensures NoEntries(es[j])
    {
      if j != o {
        assert es[i].authId == employees[i].authId;
      }
    }
  }

  /** Adding a new profile with a fresh id, no entries and no applications. */
  lemma EmployeeAppended(employees: seq<Employee>, jobs: seq<Job>, n: nat, e: Employee)
    requires EmployeesOk(employees, n) && JobsOk(jobs, n) && ApplicationsInStep(jobs, employees)
    requires e.id == n && NoEntries(e) && e.appliedJobs == []
    ensures EmployeesOk(employees + [e], n + 1)
    ensures ApplicationsInStep(jobs, employees + [e])
  {
    var es := employees + [e];
    forall i | 0 <= i < |es|
      ensures EmployeeOk(es[i], n + 1)
    {
      if i < |employees| {
        var d := es[i];
        assert d == employees[i];
        forall k: Kind
          ensures CollectionOk(k, d.Entries(k), n + 1)
        {
          assert CollectionOk(k, d.Entries(k), n);
        }
      } else {
        forall k: Kind
          ensures CollectionOk(k, e.Entries(k), n + 1)
        {
          assert e.Entries(k) == [];
        }
      }
    }
    forall j, i | 0 <= j < |jobs| && 0 <= i < |es|
      ensures es[i].id in jobs[j].applicants <==> jobs[j].id in es[i].appliedJobs
    {
      if i == |employees| {
        assert es[i].id !in jobs[j].applicants;
      }
    }
  }

  /** Replacing employer `o` by one with the same id and postings. */
  lemma EmployerReplaced(employers: seq<Employer>, jobs: seq<Job>, n: nat, o: nat, e: Employer)
    requires EmployersOk(employers, n) && PostingsInStep(employers, jobs)
    requires o < |employers| && e.id == employers[o].id && e.authId == employers[o].authId
    requires e.jobPosted == employers[o].jobPosted
    ensures EmployersOk(employers[o := e], n) && PostingsInStep(employers[o := e], jobs)
  {
    var ers := employers[o := e];
    forall i, j | 0 <= i < j < |ers|
      ensures ers[i].id != ers[j].id && ers[i].authId != ers[j].authId
    {
      assert ers[i].id == employers[i].id && ers[i].authId == employers[i].authId;
      assert ers[j].id == employers[j].id && ers[j].authId == employers[j].authId;
    }
    forall x, i | 0 <= i < |ers| && x in ers[i].jobPosted
      ensures HasJob(jobs, x)
    {
      assert x in employers[i].jobPosted;
    }
  }

  /** Adding an employer for an account that has none, with a fresh id. */
  lemma EmployerAppended(employers: seq<Employer>, jobs: seq<Job>, n: nat, e: Employer)
    requires EmployersOk(employers, n) && JobsOk(jobs, n) && PostingsInStep(employers, jobs)
    requires e.id == n && e.jobPosted == []
    requires forall i :: 0 <= i < |employers| ==> employers[i].authId != e.authId
    ensures EmployersOk(employers + [e], n + 1) && PostingsInStep(employers + [e], jobs)
  {
    var ers := employers + [e];
    forall x, i | 0 <= i < |ers| && x in ers[i].jobPosted
      ensures HasJob(jobs, x)
    {
      assert i < |employers|;
      assert x in employers[i].jobPosted;
    }
  }

  /** Removing employer `o`: its jobs stay behind with a dangling `employerId`. */
  lemma EmployerRemoved(employers: seq<Employer>, jobs: seq<Job>, n: nat, o: nat)
    requires EmployersOk(employers, n) && PostingsInStep(employers, jobs) && o < |employers|
    ensures EmployersOk(employers[..o] + employers[o + 1..], n)
    ensures PostingsInStep(employers[..o] + employers[o + 1..], jobs)
  {
    var ers := employers[..o] + employers[o + 1..];
    assert forall i :: 0 <= i < |ers| ==> ers[i] == employers[if i < o then i else i + 1];
    forall x, i | 0 <= i < |ers| && x in ers[i].jobPosted
      ensures HasJob(jobs, x)
    {
      assert ers[i] in employers;
    }
  }

  /** Adding a handed-out job id to the applied jobs of profile `o`. */
  lemma AppliedJobAdded(employees: seq<Employee>, n: nat, o: nat, x: Id)
    requires EmployeesOk(employees, n) && o < |employees| && x < n
    ensures EmployeesOk(employees[o := employees[o].(appliedJobs := AddToSet(employees[o].appliedJobs, x))], n)
  {
    var e := employees[o].(appliedJobs := AddToSet(employees[o].appliedJobs, x));
    forall k: Kind
      ensures CollectionOk(k, e.Entries(k), n) && e.Entries(k) == employees[o].Entries(k)
    {
      assert e.Entries(k) == employees[o].Entries(k);
    }
    var es := employees[o := e];
    forall i, j | 0 <= i < j < |es| && es[i].authId == es[j].authId
      ensures NoEntries(es[j])
    {
      assert es[i].authId == employees[i].authId;
    }
  }

  /** Applying: profile `o` adds job `j` to its applied jobs and job `j`
      adds the profile to its applicants, both with set semantics. */
  lemma Applied(employees: seq<Employee>, jobs: seq<Job>, employers: seq<Employer>, n: nat, o: nat, j: nat)
    requires EmployeesOk(employees, n) && JobsOk(jobs, n)
    requires ApplicationsInStep(jobs, employees) && PostingsInStep(employers, jobs)
    requires o < |employees| && j < |jobs|
    ensures var es := employees[o := employees[o].(appliedJobs := AddToSet(employees[o].appliedJobs, jobs[j].id))];
            var js := jobs[j := jobs[j].(applicants := AddToSet(jobs[j].applicants, employees[o].id))];
            EmployeesOk(es, n) && JobsOk(js, n) && ApplicationsInStep(js, es) && PostingsInStep(employers, js)
  {
    var es := employees[o := employees[o].(appliedJobs := AddToSet(employees[o].appliedJobs, jobs[j].id))];
    var js := jobs[j := jobs[j].(applicants := AddToSet(jobs[j].applicants, employees[o].id))];
    AppliedJobAdded(employees, n, o, jobs[j].id);
    forall q, i | 0 <= q < |js| && 0 <= i < |es|
      ensures es[i].id in js[q].applicants <==> js[q].id in es[i].appliedJobs
    {
      assert employees[i].id in jobs[q].applicants <==> jobs[q].id in employees[i].appliedJobs;
    }
    forall e, x | 0 <= e < |employers| && x in employers[e].jobPosted
      ensures HasJob(js, x)
    {
      assert HasJob(jobs, x);
      var q :| 0 <= q < |jobs| && jobs[q].id == x;
      assert js[q].id == x;
    }
  }

  /** Every posted id is an id already handed out. */
  lemma PostedBelow(employers: seq<Employer>, jobs: seq<Job>, n: nat)
    requires JobsOk(jobs, n) && PostingsExist(employers, jobs)
    ensures forall e, x :: 0 <= e < |employers| && x in employers[e].jobPosted ==> x < n
  {
    forall e, x | 0 <= e < |employers| && x in employers[e].jobPosted
      ensures x < n
    {
      assert HasJob(jobs, x);
      var q :| 0 <= q < |jobs| && jobs[q].id == x;
      assert JobOk(jobs[q], n);
    }
  }

  /** Adding a job with a fresh id, a fresh `jobKey`, no applicants, and a
      title no other job of the same employer has; the employer `e` lists it. */
  lemma JobAppended(employers: seq<Employer>, jobs: seq<Job>, employees: seq<Employee>, n: nat, e: nat, job: Job)
    requires EmployersOk(employers, n) && JobsOk(jobs, n)
    requires ApplicationsInStep(jobs, employees) && EmployeesOk(employees, n)
    requires PostingsInStep(employers, jobs)
    requires e < |employers| && job.id == n && job.employerId == employers[e].id && job.applicants == []
    requires Normal(job.title)
    requires forall i :: 0 <= i < |jobs| ==> jobs[i].jobKey != job.jobKey
    requires forall i :: 0 <= i < |jobs| ==> !(jobs[i].employerId == job.employerId && jobs[i].title == job.title)
    ensures var ers := employers[e := employers[e].(jobPosted := AddToSet(employers[e].jobPosted, n))];
            EmployersOk(ers, n + 1) && JobsOk(jobs + [job], n + 1)
            && ApplicationsInStep(jobs + [job], employees) && PostingsInStep(ers, jobs + [job])
  {
    var ers := employers[e := employers[e].(jobPosted := AddToSet(employers[e].jobPosted, n))];
    var js := jobs + [job];
    PostedBelow(employers, jobs, n);
    forall i, j | 0 <= i < j < |ers|
      ensures ers[i].id != ers[j].id && ers[i].authId != ers[j].authId
    {
      assert ers[i].id == employers[i].id && ers[i].authId == employers[i].authId;
      assert ers[j].id == employers[j].id && ers[j].authId == employers[j].authId;
    }
    forall q, i | 0 <= q < |js| && 0 <= i < |employees|
      ensures employees[i].id in js[q].applicants <==> js[q].id in employees[i].appliedJobs
    {
      if q == |jobs| {
        assert n !in employees[i].appliedJobs;
      }
    }
    forall x, i | 0 <= i < |ers| && x in ers[i].jobPosted
      ensures HasJob(js, x)
    {
      if x == n {
        assert js[|jobs|].id == x;
      } else {
        assert x in employers[i].jobPosted;
        assert HasJob(jobs, x);
        var q :| 0 <= q < |jobs| && jobs[q].id == x;
        assert js[q].id == x;
      }
    }
    forall i, q | 0 <= i < |ers| && 0 <= q < |js|
      ensures js[q].id in ers[i].jobPosted <==> js[q].employerId == ers[i].id
    {
      if q == |jobs| {
        if i != e {
          assert employers[i].id != employers[e].id;
        }
      } else {
        assert jobs[q].id != n;
      }
    }
    forall i, j | 0 <= i < j < |js|
      ensures js[i].id != js[j].id && js[i].jobKey != js[j].jobKey
      ensures !(js[i].employerId == js[j].employerId && js[i].title == js[j].title)
    {
      if j == |jobs| {
        assert js[i] == jobs[i];
      }
    }
  }

  /** Changing the fields of job `p` other than its id, owner, key and
      applicants, to a title no other job of that owner has. */
  lemma JobReplaced(employers: seq<Employer>, jobs: seq<Job>, employees: seq<Employee>, n: nat, p: nat, job: Job)
    requires JobsOk(jobs, n) && ApplicationsInStep(jobs, employees) && PostingsInStep(employers, jobs)
    requires p < |jobs| && job.id == jobs[p].id && job.employerId == jobs[p].employerId
    requires job.jobKey == jobs[p].jobKey && job.applicants == jobs[p].applicants
    requires Normal(job.title)
    requires forall i :: 0 <= i < |jobs| && i != p ==> !(jobs[i].employerId == job.employerId && jobs[i].title == job.title)
    ensures JobsOk(jobs[p := job], n) && ApplicationsInStep(jobs[p := job], employees)
    ensures PostingsInStep(employers, jobs[p := job])
  {
    var js := jobs[p := job];
    forall e, x | 0 <= e < |employers| && x in employers[e].jobPosted
      ensures HasJob(js, x)
    {
      assert HasJob(jobs, x);
      var q :| 0 <= q < |jobs| && jobs[q].id == x;
      assert js[q].id == x;
    }
  }

  /** Deleting job `p` and pulling its id from its owner `e`'s postings. */
  lemma JobRemoved(employers: seq<Employer>, jobs: seq<Job>, employees: seq<Employee>, n: nat, e: nat, p: nat)
    requires EmployersOk(employers, n) && JobsOk(jobs, n)
    requires ApplicationsInStep(jobs, employees) && PostingsInStep(employers, jobs)
    requires e < |employers| && p < |jobs| && jobs[p].employerId == employers[e].id
    ensures var ers := employers[e := employers[e].(jobPosted := Pull(employers[e].jobPosted, jobs[p].id))];
            var js := jobs[..p] + jobs[p + 1..];
            EmployersOk(ers, n) && JobsOk(js, n) && ApplicationsInStep(js, employees) && PostingsInStep(ers, js)
  {
    var id := jobs[p].id;
    var ers := employers[e := employers[e].(jobPosted := Pull(employers[e].jobPosted, id))];
    var js := jobs[..p] + jobs[p + 1..];
    assert forall i :: 0 <= i < |js| ==> js[i] == jobs[if i < p then i else i + 1];
    forall i, j | 0 <= i < j < |ers|
      ensures ers[i].id != ers[j].id && ers[i].authId != ers[j].authId
    {
      assert ers[i].id == employers[i].id && ers[i].authId == employers[i].authId;
      assert ers[j].id == employers[j].id && ers[j].authId == employers[j].authId;
    }
    forall i, j | 0 <= i < j < |js|
      ensures js[i].id != js[j].id && js[i].jobKey != js[j].jobKey
      ensures !(js[i].employerId == js[j].employerId && js[i].title == js[j].title)
    {
      var a := if i < p then i else i + 1;
      var b := if j < p then j else j + 1;
      assert a < b;
    }
    forall q, i | 0 <= q < |js| && 0 <= i < |employees|
      ensures employees[i].id in js[q].applicants <==> js[q].id in employees[i].appliedJobs
    {
      var a := if q < p then q else q + 1;
      assert js[q] == jobs[a];
    }
    forall i, q | 0 <= i < |ers| && 0 <= q < |js|
      ensures js[q].id in ers[i].jobPosted <==> js[q].employerId == ers[i].id
    {
      var a := if q < p then q else q + 1;
      assert js[q] == jobs[a] && a != p;
      assert jobs[a].id != id;
    }
    forall x, i | 0 <= i < |ers| && x in ers[i].jobPosted
      ensures HasJob(js, x)
    {
      assert x in employers[i].jobPosted;
      assert HasJob(jobs, x);
      var q :| 0 <= q < |jobs| && jobs[q].id == x;
      if q == p {
        assert false;
      } else {
        var r := if q < p then q else q - 1;
        assert js[r] == jobs[q];
      }
    }
  }

  /** Adding an account with a fresh id, an e-mail address (and Google id)
      no account has yet, and one of the two shapes. */
  lemma AccountAppended(accounts: seq<Account>, n: nat, a: Account)
    requires AccountsOk(accounts, n) && a.id == n && WellFormed(a)
    requires forall i :: 0 <= i < |accounts| ==> accounts[i].email != a.email
    requires a.googleId.Some? ==> forall i :: 0 <= i < |accounts| ==> accounts[i].googleId != a.googleId
    ensures AccountsOk(accounts + [a], n + 1)
  {
    var xs := accounts + [a];
    forall i, j | 0 <= i < j < |xs|
      ensures xs[i].id != xs[j].id && xs[i].email != xs[j].email
      ensures xs[i].googleId.Some? ==> xs[i].googleId != xs[j].googleId
    {
      if j == |accounts| {
        assert xs[i] == accounts[i];
      }
    }
  }

  /** Changing the role of an account keeps the accounts consistent. */
  lemma AccountRoleChanged(accounts: seq<Account>, n: nat, i: nat, role: Role)
    requires AccountsOk(accounts, n) && i < |accounts|
    ensures AccountsOk(accounts[i := accounts[i].(role := role)], n)
  {
    var xs := accounts[i := accounts[i].(role := role)];
    forall p, q | 0 <= p < q < |xs|
      ensures xs[p].id != xs[q].id && xs[p].email != xs[q].email
      ensures xs[p].googleId.Some? ==> xs[p].googleId != xs[q].googleId
    {
      assert xs[p].id == accounts[p].id && xs[p].email == accounts[p].email && xs[p].googleId == accounts[p].googleId;
      assert xs[q].id == accounts[q].id && xs[q].email == accounts[q].email && xs[q].googleId == accounts[q].googleId;
    }
  }

  class Db {
    var accounts: seq<Account>
    var employees: seq<Employee>
    var employers: seq<Employer>
    var jobs: seq<Job>
    var nextId: nat

    ghost predicate Valid()
      reads this
    {
      Consistent(accounts, employees, employers, jobs, nextId)
    }

    /** An empty database. */
    constructor ()
      ensures Valid()
      ensures accounts == [] && employees == [] && employers == [] && jobs == []
    {
      accounts, employees, employers, jobs := [], [], [], [];
      nextId := 0;
    }

    /** A new ObjectId, distinct from every id handed out before. */
    method FreshId() returns (id: Id)
      requires Valid()
      modifies this`nextId
      ensures Valid()
      ensures id == old(nextId) && nextId == id + 1
    {
      id := nextId;
      ConsistentGrows(accounts, employees, employers, jobs, nextId);
      nextId := nextId + 1;
    }

    /** Writes back the profile at `o` after an update that keeps its ids and
        applied jobs and leaves its arrays well formed; the profile must be
        the account's first unless it holds no sub-resource elements. */
    method ReplaceEmployee(o: nat, e: Employee)
      requires Valid() && o < |employees|
      requires e.id == employees[o].id && e.authId == employees[o].authId
      requires e.appliedJobs == employees[o].appliedJobs
      requires forall k: Kind :: CollectionOk(k, e.Entries(k), nextId)
      requires NoEntries(e) || forall i :: 0 <= i < o ==> employees[i].authId != e.authId
      modifies this`employees
      ensures Valid() && employees == old(employees)[o := e]
    {
      EmployeeReplaced(employees, jobs, nextId, o, e);
      employees := employees[o := e];
    }

    /** `Auth.create`: a new account with the next id; the unique index on
        `email` and the distinct Google ids hold. */
    method AppendAccount(a: Account)
      requires Valid() && a.id == nextId && WellFormed(a)
      requires forall i :: 0 <= i < |accounts| ==> accounts[i].email != a.email
      requires a.googleId.Some? ==> forall i :: 0 <= i < |accounts| ==> accounts[i].googleId != a.googleId
      modifies this`accounts, this`nextId
      ensures Valid() && accounts == old(accounts) + [a] && nextId == old(nextId) + 1
    {
      AccountAppended(accounts, nextId, a);
      ConsistentGrows(accounts, employees, employers, jobs, nextId);
      accounts := accounts + [a];
      nextId := nextId + 1;
    }

    /** Sets the role of account `i`. */
    method SetAccountRole(i: nat, role: Role)
      requires Valid() && i < |accounts|
      modifies this`accounts
      ensures Valid() && accounts == old(accounts)[i := old(accounts)[i].(role := role)]
    {
      AccountRoleChanged(accounts, nextId, i, role);
      accounts := accounts[i := accounts[i].(role := role)];
    }

    /** `Employee.create({authId})`: an empty profile with the next id. */
    method AppendEmployee(authId: Id)
      requires Valid()
      modifies this`employees, this`nextId
      ensures Valid() && employees == old(employees) + [NewEmployee(old(nextId), authId)]
      ensures nextId == old(nextId) + 1
    {
      var e := NewEmployee(nextId, authId);
      EmployeeAppended(employees, jobs, nextId, e);
      ConsistentGrows(accounts, employees, employers, jobs, nextId);
      employees := employees + [e];
      nextId := nextId + 1;
    }

    /** Inserts an employer profile with the next id for an account that
        has none yet. */
    method AppendEmployer(e: Employer)
      requires Valid() && e.id == nextId && e.jobPosted == []
      requires forall i :: 0 <= i < |employers| ==> employers[i].authId != e.authId
      modifies this`employers, this`nextId
      ensures Valid() && employers == old(employers) + [e] && nextId == old(nextId) + 1
    {
      EmployerAppended(employers, jobs, nextId, e);
      ConsistentGrows(accounts, employees, employers, jobs, nextId);
      employers := employers + [e];
      nextId := nextId + 1;
    }

    /** Writes back employer `o` after an update that keeps its id, account
        and postings. */
    method ReplaceEmployer(o: nat, e: Employer)
      requires Valid() && o < |employers|
      requires e.id == employers[o].id && e.authId == employers[o].authId && e.jobPosted == employers[o].jobPosted
      modifies this`employers
      ensures Valid() && employers == old(employers)[o := e]
    {
      EmployerReplaced(employers, jobs, nextId, o, e);
      employers := employers[o := e];
    }

    /** Deletes employer `o`; its jobs stay. */
    method RemoveEmployer(o: nat)
      requires Valid() && o < |employers|
      modifies this`employers
      ensures Valid() && employers == old(employers)[..o] + old(employers)[o + 1..]
    {
      EmployerRemoved(employers, jobs, nextId, o);
      employers := employers[..o] + employers[o + 1..];
    }

    /** Inserts a new job with the next id and lists it in the `jobPosted`
        of its employer `e` (`Job.create` followed by `$addToSet`). */
    method AppendJob(e: nat, job: Job)
      requires Valid() && e < |employers| && job.id == nextId
      requires job.employerId == employers[e].id && job.applicants == [] && Normal(job.title)
      requires forall i :: 0 <= i < |jobs| ==> jobs[i].jobKey != job.jobKey
      requires forall i :: 0 <= i < |jobs| ==> !(jobs[i].employerId == job.employerId && jobs[i].title == job.title)
      modifies this`jobs, this`employers, this`nextId
      ensures Valid() && nextId == old(nextId) + 1 && jobs == old(jobs) + [job]
      ensures employers == old(employers)[e := old(employers)[e].(jobPosted := AddToSet(old(employers)[e].jobPosted, job.id))]
    {
      JobAppended(employers, jobs, employees, nextId, e, job);
      ConsistentGrows(accounts, employees, employers, jobs, nextId);
      employers := employers[e := employers[e].(jobPosted := AddToSet(employers[e].jobPosted, job.id))];
      jobs := jobs + [job];
      nextId := nextId + 1;
    }

    /** Writes back job `p` after an update that keeps its id, owner, key and
        applicants and gives it a normalised title no other job of that
        owner has. */
    method ReplaceJob(p: nat, job: Job)
      requires Valid() && p < |jobs| && job.id == jobs[p].id && job.employerId == jobs[p].employerId
      requires job.jobKey == jobs[p].jobKey && job.applicants == jobs[p].applicants && Normal(job.title)
      requires forall i :: 0 <= i < |jobs| && i != p ==> !(jobs[i].employerId == job.employerId && jobs[i].title == job.title)
      modifies this`jobs
      ensures Valid() && jobs == old(jobs)[p := job]
    {
      JobReplaced(employers, jobs, employees, nextId, p, job);
      jobs := jobs[p := job];
    }

    /** Deletes job `p` and pulls its id from the `jobPosted` of its
        employer `e`. */
    method RemoveJob(e: nat, p: nat)
      requires Valid() && e < |employers| && p < |jobs| && jobs[p].employerId == employers[e].id
      modifies this`jobs, this`employers
      ensures Valid() && jobs == old(jobs)[..p] + old(jobs)[p + 1..]
      ensures employers == old(employers)[e := old(employers)[e].(jobPosted := Pull(old(employers)[e].jobPosted, old(jobs)[p].id))]
    {
      JobRemoved(employers, jobs, employees, nextId, e, p);
      employers := employers[e := employers[e].(jobPosted := Pull(employers[e].jobPosted, jobs[p].id))];
      jobs := jobs[..p] + jobs[p + 1..];
    }

    /** Records that profile `o` applied to job `j`, on both sides. */
    method RecordApplication(o: nat, j: nat)
      requires Valid() && o < |employees| && j < |jobs|
      modifies this`employees, this`jobs
      ensures Valid()
      ensures employees == old(employees)[o := old(employees)[o].(appliedJobs := AddToSet(old(employees)[o].appliedJobs, old(jobs)[j].id))]
      ensures jobs == old(jobs)[j := old(jobs)[j].(applicants := AddToSet(old(jobs)[j].applicants, old(employees)[o].id))]
    {
      Applied(employees, jobs, employers, nextId, o, j);
      var x := jobs[j].id;
      var a := employees[o].id;
      employees := employees[o := employees[o].(appliedJobs := AddToSet(employees[o].appliedJobs, x))];
      jobs := jobs[j := jobs[j].(applicants := AddToSet(jobs[j].applicants, a))];
    }
  }
}
