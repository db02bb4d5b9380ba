/** What a handler answers with `res.status(code).json(payload)`. */
module Http {
  import opened Base
  import opened AuthModel
  import opened EmployeeModel
  import EmployerModel
  import opened JobModel

  datatype Payload =
    /** `{message: "..."}` with a text fixed in the handler. */
    | Message(text: string)
    /** `{message: error.details[0].message}`: Joi's first complaint. */
    | Invalid
    /** `{message: err.message}` from a handler's `catch`. */
    | ServerError
    | EmployeeDoc(employee: Employee)
    /** JSON `null`: a `findOneAndUpdate` that matched nothing. */
    | NoDoc
    | EmployerDoc(employer: EmployerModel.Employer)
    | AccountDoc(account: Account)
    /** `{user: {id, email}, token}`. */
    | Session(userId: Id, email: string, token: string)
    | JobList(jobs: seq<JobSummary>)

  datatype Reply = Reply(status: nat, payload: Payload)
}
