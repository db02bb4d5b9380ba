/** The Employee collection (Models/employeeModel.js): a job seeker's
    profile with its sub-resource arrays. Every array element is a
    sub-document with its own `_id`. */
module EmployeeModel {
  import opened Base
  import opened Joi

  const SalaryBands: set<string> := {"0-3 LPA", "3-6 LPA", "6-10 LPA", "10-20 LPA", "20+ LPA"}
  const DefaultSalaryBand := "0-3 LPA"
  const PreferredJobTypes: set<string> := {"full-time", "part-time", "internship", "contract", "freelance"}
  const WorkAvailabilities: set<string> := {"monday-to-friday", "weekend-availability", "weekend-only"}
  const ShiftPreferences: set<string> :=
    {"day-shift", "morning-shift", "rotational-shift", "night-shift", "evening-shift",
     "fixed-shift", "us-shift", "uk-shift"}
  const RemoteModes: set<string> := {"remote", "hybrid", "onsite"}
  const DefaultRemoteMode := "onsite"
  const Proficiencies: set<string> := {"beginner", "intermediate", "expert", "fluent", "native"}

  /** The six sub-resource arrays of a profile. */
  datatype Kind = Education | Experience | Skills | Certifications | Languages | JobPreferences {
    /** The kinds whose add and edit handlers reject duplicates. */
    predicate Deduped() {
      !JobPreferences?
    }
  }

  /** The payload of one sub-document. Experience dates are kept as the JSON
      value they were sent as. */
  datatype Item =
    | EducationItem(degree: string, course: string)
    | ExperienceItem(company: string, title: string, startDate: Json, endDate: Json, description: string)
    | SkillItem(name: string, experience: string)
    | CertificationItem(name: string, expireYear: Option<string>)
    | LanguageItem(name: string, proficiency: Option<string>)
    | PreferenceItem(
        jobTitle: seq<string>, preferredLocation: seq<string>, expectedSalary: string,
        jobType: seq<string>, workAvailability: seq<string>, shiftPreference: seq<string>,
        remote: string)
  {
    function KindOf(): Kind {
      match this
      case EducationItem(_, _) => Education
      case ExperienceItem(_, _, _, _, _) => Experience
      case SkillItem(_, _) => Skills
      case CertificationItem(_, _) => Certifications
      case LanguageItem(_, _) => Languages
      case PreferenceItem(_, _, _, _, _, _, _) => JobPreferences
    }

    /** The fields the duplicate check of its kind compares: (degree, course),
        (company, title), or the name. */
    function Key(): seq<string> {
      match this
      case EducationItem(d, c) => [d, c]
      case ExperienceItem(company, title, _, _, _) => [company, title]
      case SkillItem(name, _) => [name]
      case CertificationItem(name, _) => [name]
      case LanguageItem(name, _) => [name]
      case PreferenceItem(_, _, _, _, _, _, _) => []
    }
  }

  /** An array element: its `_id` and its fields. */
  datatype Entry = Entry(id: Id, item: Item)

  datatype Location = Location(
    country: Option<string>, street: Option<string>, cityState: Option<string>,
    area: Option<string>, pincode: Option<string>, relocation: Option<bool>)

  /** An Employee document. `authId` refers to an account but is not
      unique: several profiles may belong to one account. */
  datatype Employee = Employee(
    id: Id,
    authId: Id,
    userName: Option<string>,
    phone: Option<string>,
    location: Option<Location>,
    education: seq<Entry>,
    experience: seq<Entry>,
    skills: seq<Entry>,
    jobPreferences: seq<Entry>,
    certifications: seq<Entry>,
    languages: seq<Entry>,
    resumeUrl: Option<string>,
    appliedJobs: seq<Id>)
  {
    function Entries(k: Kind): seq<Entry> {
      match k
      case Education => education
      case Experience => experience
      case Skills => skills
      case Certifications => certifications
      case Languages => languages
      case JobPreferences => jobPreferences
    }

    /** The same document with the array of kind `k` replaced by `xs`. */
    function WithEntries(k: Kind, xs: seq<Entry>): (e: Employee)
      ensures e.Entries(k) == xs
      ensures forall k' :: k' != k ==> e.Entries(k') == Entries(k')
      ensures e.id == id && e.authId == authId && e.appliedJobs == appliedJobs
      ensures e.userName == userName && e.phone == phone && e.location == location
      ensures e.resumeUrl == resumeUrl
    {
      match k
      case Education => this.(education := xs)
      case Experience => this.(experience := xs)
      case Skills => this.(skills := xs)
      case Certifications => this.(certifications := xs)
      case Languages => this.(languages := xs)
      case JobPreferences => this.(jobPreferences := xs)
    }
  }

  /** `Employee.create({authId})`: every array empty, no other field set. */
  function NewEmployee(id: Id, authId: Id): Employee {
    Employee(id, authId, None, None, None, [], [], [], [], [], [], None, [])
  }
}
