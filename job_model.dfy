/** The Job collection (Models/jobModel.js). */
module JobModel {
  import opened Base

  const JobTypes: set<string> := {"full-time", "part-time", "internship", "contract"}

  /** A Job document. `types` is the schema's `type` array. */
  datatype Job = Job(
    id: Id,
    title: string,
    description: Option<string>,
    types: seq<string>,
    experience: Option<string>,
    location: Option<string>,
    salaryRange: Option<string>,
    skills: seq<string>,
    employerId: Id,
    applicants: seq<Id>,
    jobKey: string,
    isActive: bool)

  /** What the `trim: true, lowercase: true` setters leave: no upper-case
      letter, and no white space at either end. */
  predicate Normal(s: string) {
    NoUpper(s) && (s == [] || (!IsSpace(s[0]) && !IsSpace(s[|s| - 1])))
  }

  /** The `trim: true, lowercase: true` setters of `title` and `location`. */
  function Normalize(s: string): (r: string)
    ensures Normal(r)
  {
    var t := Trim(s);
    TrimShape(s);
    LowerKeepsEnds(t);
    if t == [] then [] else ToLower(t)
  }

  /** Lower-casing a string without white space at its ends makes it
      normal. */
  lemma LowerKeepsEnds(t: string)
    requires t == [] || (!IsSpace(t[0]) && !IsSpace(t[|t| - 1]))
    ensures Normal(ToLower(t))
  {
    var r := ToLower(t);
    forall i | 0 <= i < |r|
      ensures !('A' <= r[i] <= 'Z')
    {
      assert r[i] == LowerChar(t[i]);
    }
    if t != [] {
      assert r[0] == LowerChar(t[0]) && r[|r| - 1] == LowerChar(t[|t| - 1]);
      LowerCharSpace(t[0]);
      LowerCharSpace(t[|t| - 1]);
    }
  }

  lemma LowerIdempotent(s: string)
    requires NoUpper(s)
    ensures ToLower(s) == s
  {
  }

  /** A string the setters would leave alone is left alone. */
  lemma NormalFixed(s: string)
    requires Normal(s)
    ensures Normalize(s) == s
  {
    assert TrimStart(s) == s;
    assert TrimEnd(s) == s;
    LowerIdempotent(s);
  }

  /** Running the setters again changes nothing. */
  lemma NormalizeIdempotent(s: string)
    ensures Normalize(Normalize(s)) == Normalize(s)
  {
    NormalFixed(Normalize(s));
  }

  /** One element of the public job listing: the selected fields with
      `applicants` replaced by their number. */
  datatype JobSummary = JobSummary(
    id: Id,
    title: string,
    description: Option<string>,
    types: seq<string>,
    experience: Option<string>,
    location: Option<string>,
    salaryRange: Option<string>,
    skills: seq<string>,
    jobKey: string,
    isActive: bool,
    applicantsCount: nat)
}
