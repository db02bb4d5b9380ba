/** The Employer collection (Models/employerModel.js). */
module EmployerModel {
  import opened Base

  /** The nested `location` object; `pincode` is a Number. */
  datatype Location = Location(
    country: Option<string>, cityState: Option<string>, street: Option<string>,
    area: Option<string>, pincode: Option<int>)

  const NoLocation := Location(None, None, None, None, None)

  /** An Employer document. The schema requires `userName`, but the update
      paths that create employers never set it, so it is optional here. */
  datatype Employer = Employer(
    id: Id,
    authId: Id,
    userName: Option<string>,
    companyName: Option<string>,
    industry: Option<string>,
    companySize: Option<string>,
    website: Option<string>,
    location: Location,
    description: Option<string>,
    hrName: Option<string>,
    hrPhone: Option<string>,
    hrEmail: Option<string>,
    jobPosted: seq<Id>)

  /** An employer created by an upsert keyed on `authId` alone. */
  function NewEmployer(id: Id, authId: Id): Employer {
    Employer(id, authId, None, None, None, None, None, NoLocation, None, None, None, None, [])
  }
}
