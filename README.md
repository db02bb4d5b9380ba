# A verified model of the WorkWave job-board back end

WorkWave is an Express and Mongoose back end for a job board. Its
collections are accounts (`Auth`), job seekers (`Employee`), companies
(`Employer`) and postings (`Job`). This project models how its handlers
keep those records, and proves what the handlers promise.

- **Store.** One in-memory store, `Store.Db`, holds the four collections
  as sequences in insertion order, so a Mongo `findOne` is "the first
  match". A counter stands for ObjectId generation. `Store.Consistent`
  states what every handler keeps true:
  - the unique indexes on e-mail address and `jobKey`;
  - distinct ids and distinct Google ids;
  - well-formed sub-resource arrays;
  - one employer per account;
  - the two sides of an application agree;
  - `jobPosted` lists exactly an employer's jobs.
- **Handlers.** Each handler is a method on the store. Its `ensures` gives
  the reply and the new collections for each branch of the source.
- **Specifications.** The pure functions that specify the updates carry
  their own lemmas: round trips, idempotence, "only the target changes",
  ordering.
- **Boundaries.** Request bodies are JSON values, and the Joi schemas are
  predicates over them. bcrypt, JSON Web Tokens and the clock are
  parameters: a digest is symbolic, `sign` and `verify` are functions
  passed in, and `now` is a number.

Modules:

- `Base`: Option, ids, JavaScript `trim`, `toLowerCase`, `split(...).pop()`, `$addToSet`, `$pull`.
- `Joi`: JSON bodies, the Joi rules used by the schemas, the Mongoose String and Boolean casts.
- `AuthModel`, `EmployeeModel`, `EmployerModel`, `JobModel`: the four Mongoose schemas.
- `SubResource`: the sub-document arrays of a profile: push, positional set, pull.
- `Store`: the collections, their invariant, and one write method per kind of update.
- `Http`: replies (`status` and payload).
- `EmployeeController`: profile upsert and the add / edit / delete protocol of the six arrays.
- `JobKey`: the title slug and the `jobKey`.
- `JobController`: create, update, delete, apply and the public listing.
- `Token`: the signed claims and the `Authorization` header.
- `AuthController`: register, login, role selection.
- `AuthMiddleware`: `protect`.
- `Passport`: the verify callback of the Google strategy.
- `EmployerController`: employer upsert and delete.
- `UploadMiddleware`: the stored file name, the type filter, the size limit.

Where the model departs from what a reader of the code might expect, the
code decides:

- An `undefined` value in `$set` is stripped by Mongoose, so the field
  keeps its old value. This is the behaviour of Mongoose 6 and later, which
  the model assumes; Mongoose 5 stored such a value as null unless
  `omitUndefined` was set. This applies to `setProfile`, `newEmployer` and the
  edits of certifications and languages.
- `setRole`'s upsert carries only `role`, which the strict profile schemas
  drop. An existing profile is therefore left as it is, and a missing one
  is created empty.
- Registration always creates an Employee profile, because the role
  default makes the account an employee.

## Model

| member | source | states |
|---|---|---|
| `AuthModel.ParseRole` | Models/authModel.js:8 | a role is exactly one of "employee" and "employer", and reading its name back gives the same role |
| `AuthModel.Utf8Char` | Controllers/authController.js:41 | one character encodes as one to four bytes, an ASCII character as itself, and a character other than the zero character never as a zero byte |
| `AuthModel.Key` | Controllers/authController.js:41 | the key bcrypt derives from a password is always 72 bytes long |
| `AuthModel.AsciiUtf8` | Controllers/authController.js:41 | an ASCII password encodes byte for byte |
| `AuthModel.LongPasswordsShareKey` | Controllers/authController.js:94 | two passwords whose encodings agree on the first 72 bytes share a key, so each matches the other's digest |
| `AuthModel.LongAsciiPasswordsMatch` | Controllers/authController.js:94 | two ASCII passwords of at least 72 characters that agree on the first 72 match each other's digest |
| `AuthModel.ShortAsciiPasswordsApart` | Controllers/authController.js:94 | two different ASCII passwords shorter than 72 characters have different keys |
| `JobModel.Normalize` | Models/jobModel.js:5-10 | the `trim`/`lowercase` setters leave no upper-case letter and no white space at either end |
| `JobModel.NormalFixed` | Models/jobModel.js:5-10 | a title that is already normal is stored unchanged |
| `JobModel.NormalizeIdempotent` | Models/jobModel.js:31-35 | applying the setters a second time changes nothing |
| `Base.AddToSet` | Controllers/jobController.js:258-265 | `$addToSet` puts the element in, keeps a set a set, and changes nothing when the element is already present |
| `Base.Pull` | Controllers/jobController.js:198-201 | `$pull` removes every copy of the element, keeps every other element, and keeps a set a set |
| `Base.LastPiece` | Middlewares/uploadMiddleware.js:28 | `split(".").pop()` is the longest dot-free suffix |
| `Base.LastPieceAfter` | Middlewares/uploadMiddleware.js:28 | the text after a final separator is exactly that text |
| `Base.Utf16Length` | Controllers/authController.js:14 | the JavaScript length of a string lies between its character count and twice that, and equals the character count when no character is beyond U+FFFF |
| `Base.TrimIdempotent` | Models/jobModel.js:8 | trimming twice is trimming once |
| `Joi.CastBoolean` | Models/employeeModel.js:14 | the Boolean cast keeps booleans and refuses strings such as "TRUE" that Joi's `boolean()` accepts |
| `SubResource.SetFirst` | Controllers/employeeController.js:230-239 | the positional `$set` keeps the length and every `_id`, and changes nothing when no element has the id |
| `SubResource.PullAll` | Controllers/employeeController.js:258-262 | `$pull` by id leaves no element with that id and adds none, and changes nothing when no element has the id |
| `SubResource.PullKeeps` | Controllers/employeeController.js:258-262 | `$pull` by id keeps every element with another id |
| `SubResource.SetFirstAt` | Controllers/employeeController.js:230-239 | with distinct ids, the positional `$set` replaces exactly the element with that id |
| `SubResource.PullAt` | Controllers/employeeController.js:258-262 | with distinct ids, `$pull` by id removes exactly that element and keeps the others in order |
| `SubResource.PushOk` | Controllers/employeeController.js:176-190 | pushing an element whose key no element has, with a fresh id, keeps ids and keys unique |
| `SubResource.SetFirstOk` | Controllers/employeeController.js:214-239 | overwriting with a key no other element has keeps ids and keys unique |
| `SubResource.PullAllOk` | Controllers/employeeController.js:258-262 | a pull keeps the array well formed |
| `SubResource.ResaveIsNoDuplicate` | Controllers/employeeController.js:214-223 | an element is never its own duplicate under the `$ne` exclusion |
| `Store.AccountById` | Middlewares/authMiddleware.js:27 | `findById` finds an account with that id, and fails only when none has it |
| `Store.EmployeeOf` | Controllers/jobController.js:245 | `findOne({authId})` finds the first profile of the account, and fails only when it has none |
| `Store.ConsistentGrows` | Controllers/authController.js:43-47 | handing out a new ObjectId keeps the store consistent |
| `Store.JobAppended` | Controllers/jobController.js:81-96 | a new job with a fresh key and title, listed once in its employer's `jobPosted`, keeps the store consistent |
| `Store.JobRemoved` | Controllers/jobController.js:191-201 | deleting a job and pulling its id from its employer keeps the store consistent |
| `Store.Applied` | Controllers/jobController.js:258-265 | recording an application on both sides keeps the two sides in step |
| `Store.EmployerRemoved` | Controllers/employerController.js:106 | deleting an employer keeps the store consistent |
| `Store.AccountAppended` | Models/authModel.js:4 | an account with a fresh id and an unused e-mail address keeps e-mail addresses unique |
| `Store.Db.AppendEmployee` | Controllers/authController.js:49-53 | `Employee.create({authId})` appends one empty profile with the next id and keeps the store consistent |
| `Store.Db.AppendJob` | Controllers/jobController.js:81-96 | inserts the job and adds its id to its employer's `jobPosted`, keeping the store consistent |
| `Store.Db.RemoveJob` | Controllers/jobController.js:191-201 | removes the job and pulls its id from its employer, keeping the store consistent |
| `Store.Db.RecordApplication` | Controllers/jobController.js:258-265 | adds the profile to the job's applicants and the job to the profile's applied jobs, each at most once |
| `EmployeeController.NewItem` | Controllers/employeeController.js:164-866 | the pushed sub-document has the kind of its array and each field the handler pushes: degree and course; every experience field; a skill's name, with experience `""` when the sent one is falsy; the name with `expireYear` or `proficiency` as sent; the preference lists, with `"0-3 LPA"`, `[]` and `"onsite"` for a falsy salary, job type and remote mode |
| `EmployeeController.EditCheck` | Controllers/employeeController.js:506-513 | every edit but `editSkills` passes exactly when its schema holds, else 400; `editSkills` passes exactly when the name is truthy and castable to a string, answers 400 "Skill name is required" for a falsy name and 500 for a name the String cast refuses |
| `EmployeeController.SkillExperience` | Controllers/employeeController.js:530 | `experience \|\| ""`: a falsy value gives `""`, a string gives itself, and the cast fails exactly for a truthy value the String cast refuses |
| `EmployeeController.EditedItem` | Controllers/employeeController.js:650-662 | the edited element keeps its kind, its key is the key the duplicate check asked about; a skill takes the sent name and `experience \|\| ""`; a certification's `expireYear` and a language's `proficiency` take the sent value, or keep the stored one when omitted; the other kinds take the whole body as a new element would |
| `EmployeeController.HolderOf` | Controllers/employeeController.js:230-232 | the updated profile is the first of the caller's profiles holding an element with that id; none otherwise |
| `EmployeeController.Pushed` | Controllers/employeeController.js:186-190 | `$push` appends exactly one element at the end; other arrays and the ids are untouched |
| `EmployeeController.Overwritten` | Controllers/employeeController.js:230-239 | the positional `$set` keeps the array length; other arrays are untouched |
| `EmployeeController.Pulled` | Controllers/employeeController.js:258-262 | after the pull no element has that id; other arrays are untouched |
| `EmployeeController.PushKeepsProfile` | Controllers/employeeController.js:176-190 | a successful add keeps the profile well formed |
| `EmployeeController.OverwriteKeepsProfile` | Controllers/employeeController.js:214-239 | a successful edit keeps the profile well formed |
| `EmployeeController.PullKeepsProfile` | Controllers/employeeController.js:258-262 | a delete keeps the profile well formed |
| `EmployeeController.OverwriteOnlyTarget` | Controllers/employeeController.js:416-431 | an edit changes only the element with that id, and the length stays |
| `EmployeeController.PullOnlyTarget` | Controllers/employeeController.js:447-453 | a delete removes only that element and keeps the others in order |
| `EmployeeController.AddThenDeleteRestores` | Controllers/employeeController.js:186-262 | deleting the element an add has just pushed restores the profile |
| `EmployeeController.AddTwiceRefused` | Controllers/employeeController.js:352-365 | after an add, the same body is a duplicate |
| `EmployeeController.ResaveNeverDuplicate` | Controllers/employeeController.js:401-410 | re-saving an element with its own key is never refused |
| `EmployeeController.AddEntry` | Controllers/employeeController.js:164-198 | add: 400 on a schema failure, 400 on a duplicate key, 404 without a profile (nothing created), else one element pushed onto the caller's first profile, with 201 |
| `EmployeeController.EditEntry` | Controllers/employeeController.js:201-249 | edit: check, a duplicate check that excludes the target, 500 when the skill experience cannot be cast (the cast runs before the update query, lines 525-542), 404 (200 with null for certifications) when no profile holds the id, else only the target overwritten |
| `EmployeeController.DeleteEntry` | Controllers/employeeController.js:252-272 | delete: 404 when no profile of the caller holds the id, else that element pulled, with 200 |
| `EmployeeController.LocationOf` | Controllers/employeeController.js:130-139 | country, street, city/state, area and pincode are the sent strings (absent when not sent); `relocation` is the Boolean cast of the sent value, absent when not sent; the whole fails exactly when a sent `relocation` cannot be cast |
| `EmployeeController.ProfileFieldsOf` | Controllers/employeeController.js:119-139 | a body without `location` sets only `userName` and `phone`; a sent location is replaced by `LocationOf` of it, and the fields fail exactly when that cast fails |
| `EmployeeController.WithProfile` | Controllers/employeeController.js:143-147 | `$set` changes only the sent profile fields; arrays, ids and applied jobs are untouched |
| `EmployeeController.UpsertProfile` | Controllers/employeeController.js:141-147 | the caller's first profile takes the sent fields, or a new profile with the next id is created with them, with 201, keeping the store consistent |
| `EmployeeController.SetProfile` | Controllers/employeeController.js:119-161 | 400 on a schema failure, 500 on a failed cast, else the first profile updated or a new one created, with 201 |
| `JobKey.DashedShape` | Controllers/jobController.js:75 | the replacement yields only `[a-z0-9-]`, never two dashes in a row, keeps a leading letter or digit in front, and keeps every letter and digit in order |
| `JobKey.DashedAfterPlain` | Controllers/jobController.js:75 | letters and digits at the front pass through unchanged |
| `JobKey.DashedRun` | Controllers/jobController.js:75 | a whole run of other characters before a letter, a digit or the end becomes one dash |
| `JobKey.DashedOneDashPerRun` | Controllers/jobController.js:75 | between letters and digits, each run of other characters becomes exactly one dash in that place |
| `JobKey.DropLeadingDashes` | Controllers/jobController.js:76 | drops exactly the leading dashes |
| `JobKey.DropTrailingDashes` | Controllers/jobController.js:76 | drops exactly the trailing dashes |
| `JobKey.SlugShape` | Controllers/jobController.js:73-77 | a slug has at most 40 characters from `[a-z0-9-]`, no leading dash and no two dashes in a row |
| `JobKey.SlugOfPlainTitle` | Controllers/jobController.js:73-77 | a short title of lower-case letters and digits is its own slug |
| `JobKey.ToBase36` | Controllers/jobController.js:79 | the base-36 rendering is a non-empty string of digits and lower-case letters |
| `JobKey.Base36RoundTrip` | Controllers/jobController.js:79 | reading the base-36 rendering back gives the number |
| `JobKey.KeyTime` | Controllers/jobController.js:79 | the text after the last dash of a key gives back its creation time |
| `JobKey.KeyCollision` | Controllers/jobController.js:73-79 | two keys are equal exactly when the slugs and the creation times are |
| `JobController.NewJob` | Controllers/jobController.js:81-91 | the created job has the normalised title, no applicants, is active, and gets "Not Disclosed" for an omitted or empty salary range and a sent one trimmed; its experience is the sent one trimmed, or none; its types are the sent ones, its skills the sent ones or `[]`; a sent location is stored trimmed and in lower case, a sent description trimmed, and neither exists when not sent |
| `JobController.UpdatedJob` | Controllers/jobController.js:132-136 | `$set: req.body` renormalises the title, keeps id, owner, key, applicants and `isActive`, keeps every field the body omits, and sets every field it sends: types and skills as sent, the location trimmed and lower-cased, description, experience and salary range trimmed |
| `JobController.OwnedJob` | Controllers/jobController.js:132-133 | the job found has that id and the caller's employer as owner; none otherwise |
| `JobController.RetitleKeepsTitlesApart` | Controllers/jobController.js:121-130 | when the `$ne` duplicate check passes, no other job of the owner has the new title |
| `JobController.CreateJob` | Controllers/jobController.js:43-104 | 400, 404 without an employer, 400 on a taken title, 500 on a key collision, else the job is appended and listed once in `jobPosted`, with 201; every error leaves jobs and employers unchanged |
| `JobController.UpdateJob` | Controllers/jobController.js:108-146 | 400, 404 without an employer, else the owned-job update |
| `JobController.UpdateOwnedJob` | Controllers/jobController.js:121-142 | 400 on a title another job of the owner has, 404 for a job the caller does not own, else only that job is updated |
| `JobController.DeleteJob` | Controllers/jobController.js:182-209 | only a job of the caller's employer is deleted, and its id leaves `jobPosted`; 404 otherwise |
| `JobController.ApplyJob` | Controllers/jobController.js:239-271 | 404 without a profile, 400 when already applied, 404 for a missing job, else both sides record the application |
| `JobController.Listing` | Controllers/jobController.js:148-166 | the listing has only active jobs and is no longer than the collection |
| `JobController.ListingSound` | Controllers/jobController.js:150 | every listed summary is that of an active job |
| `JobController.ListingComplete` | Controllers/jobController.js:150 | every active job is listed |
| `JobController.ListingNewestFirst` | Controllers/jobController.js:155 | of two active jobs, the one created later is listed first, which is the order `sort({createdAt: -1})` gives for jobs created in different milliseconds |
| `Token.Claims` | Controllers/authController.js:61-69 | the claims carry the account id at the top level, have no `user` key, and expire seven days after issue |
| `Token.SecondPiece` | Middlewares/authMiddleware.js:16 | the second space-separated piece holds no space |
| `Token.BearerToken` | Middlewares/authMiddleware.js:12-17 | a token is taken only from a header that starts with "Bearer " |
| `Token.BearerRoundTrip` | Middlewares/authMiddleware.js:12-17 | `Bearer <token>` gives back the token, whatever follows a further space |
| `AuthController.RegisteredAccount` | Controllers/authController.js:41-47 | the new account is local, holds the digest of the password and not the password, and has the employee role |
| `AuthController.RegisterUser` | Controllers/authController.js:28-75 | 400 on a schema failure, 400 on a known e-mail address with nothing created, else the account and one empty Employee profile are appended, with 201 and a session |
| `AuthController.Login` | Controllers/authController.js:77-116 | 400, 403 for an unknown address, 403 for a Google account, 401 for a wrong password; 200 exactly when all checks pass, with a session for that account |
| `AuthController.RegisterThenLogin` | Controllers/authController.js:28-116 | after a registration the same e-mail address and password log in as the new account |
| `AuthController.ThreeEmojiArePassword` | Controllers/authController.js:14 | `min(6)` counts UTF-16 code units, so three characters beyond U+FFFF make a valid password |
| `AuthController.WrongPasswordRefused` | Controllers/authController.js:94-96 | a wrong ASCII password is refused with 401 when it and the stored password are both shorter than 72 characters |
| `AuthController.LongPasswordTruncated` | Controllers/authController.js:94-112 | a different ASCII password that agrees with the stored one on its first 72 characters logs in with 200 |
| `AuthController.SetRole` | Controllers/authController.js:143-179 | 400 unless the role is one of the two, 404 for a missing account, else the role is set and a profile of the matching kind is created only when absent; the other kind is never removed |
| `AuthMiddleware.CastObjectId` | Middlewares/authMiddleware.js:27 | only an ObjectId value finds an id |
| `AuthMiddleware.SubjectAsWritten` | Middlewares/authMiddleware.js:25 | `decoded.user.id` throws exactly when `decoded.user` is missing |
| `AuthMiddleware.SubjectAtTop` | Middlewares/authMiddleware.js:25 | reading `decoded.id` never throws, and gives the top-level `id`, or `undefined` when there is none |
| `AuthMiddleware.Gate` | Middlewares/authMiddleware.js:8-42 | no token gives 401 "token missing"; a token `jwt.verify` rejects gives 401 "Invalid token"; an admitted user is a stored account's id, e-mail and role; every refusal is a 401 |
| `AuthMiddleware.Guard` | Middlewares/authMiddleware.js:8-42 | on admission `req.user` is set and `next` is called once; on refusal `req` is untouched |
| `AuthMiddleware.Protect` | Middlewares/authMiddleware.js:8-42 | `protect` as written is the gate reading `decoded.user.id` |
| `AuthMiddleware.ProtectCorrected` | Middlewares/authMiddleware.js:25 | `protect` reading `decoded.id` is the gate reading the subject where the claims put it |
| `AuthMiddleware.IssuedTokenRefused` | Middlewares/authMiddleware.js:25 | as written, every token the application issues is refused with "Invalid token" |
| `AuthMiddleware.IssuedTokenAdmitted` | Middlewares/authMiddleware.js:25-38 | reading `decoded.id`, a token issued for a stored account admits exactly that account |
| `Passport.Resolve` | passport.js:20-41 | the account is found by Google id first and by e-mail second; one is created only when both fail; an empty e-mail list or an empty address throws |
| `Passport.GoogleAccount` | passport.js:34-40 | a created account has no password, provider "google", the Google id and the default role |
| `Passport.Outcome` | passport.js:48-52 | `done` gets an error exactly when a statement throws |
| `Passport.AccountsAfter` | passport.js:33-41 | one account is added exactly when one is created, and adding it keeps the unique e-mail and Google id indexes |
| `Passport.Verify` | passport.js:16-53 | the callback answers as `Outcome`, and every resolution of an employee account adds one empty Employee profile |
| `Passport.SignInAgain` | passport.js:25-41 | signing in again finds the account returned the first time and creates none |
| `Passport.FoundByEmailNotLinked` | passport.js:28-30 | an account found by e-mail address is not given the Google id |
| `Passport.LocalAccountSignsIn` | passport.js:28-30 | a local account with the profile's address signs in as itself |
| `EmployerController.PincodeCast` | Models/employerModel.js:23 | a number is stored as is; "" and a missing value store nothing |
| `EmployerController.LocationAlwaysEmpty` | Controllers/employerController.js:46-77 | as written, every body the schema accepts yields an empty location |
| `EmployerController.NestedLocation` | Controllers/employerController.js:23-29 | the location is read from the nested object the schema validates |
| `EmployerController.LocationRoundTrip` | Controllers/employerController.js:23-29 | every location a client sends in the nested object is accepted and read back as sent |
| `EmployerController.LocationLost` | Controllers/employerController.js:71-77 | as written, a body carrying a non-empty nested location stores an empty one |
| `EmployerController.Upserted` | Controllers/employerController.js:62-85 | the upsert sets each sent field to the value sent, keeps each omitted one, and never changes id, account, postings or `userName` |
| `EmployerController.UpsertIdempotent` | Controllers/employerController.js:62-85 | sending the same body twice stores what sending it once stores |
| `EmployerController.UpsertOverwrites` | Controllers/employerController.js:62-85 | a body naming every field decides every field it names |
| `EmployerController.UpsertEmployer` | Controllers/employerController.js:38-99 | 400 on a schema failure, else the caller's employer is updated, or created with the next id, with 201 |
| `EmployerController.WrittenLocation` | Controllers/employerController.js:71-77 | the location update as written is always the empty location |
| `EmployerController.NewEmployerAsWritten` | Controllers/employerController.js:38-99 | `newEmployer` as written: every successful call empties the stored location |
| `EmployerController.NewEmployerCorrected` | Controllers/employerController.js:23-29 | `newEmployer` reading the nested location |
| `EmployerController.DeleteEmployer` | Controllers/employerController.js:102-115 | 404 without an employer; else the caller's employer is removed, the account has none left, and every other employer stays |
| `UploadMiddleware.StoredName` | Middlewares/uploadMiddleware.js:13-16 | the stored name has the same length, no white space, each white-space character turned into "-" and every other character kept |
| `UploadMiddleware.StoredNameIdempotent` | Middlewares/uploadMiddleware.js:14 | renaming a stored name changes nothing |
| `UploadMiddleware.ExtensionAfterLastDot` | Middlewares/uploadMiddleware.js:28 | the extension is the text after the last dot, in lower case |
| `UploadMiddleware.ExtensionWithoutDot` | Middlewares/uploadMiddleware.js:28 | a name without a dot is its own extension |
| `UploadMiddleware.FileFilter` | Middlewares/uploadMiddleware.js:19-34 | a file is accepted exactly when its extension is pdf, doc or docx and its type is one of the three allowed types |
| `UploadMiddleware.FilterByLastExtension` | Middlewares/uploadMiddleware.js:28-33 | only the last extension is judged, in lower case |
| `UploadMiddleware.UpperCaseExtensionAccepted` | Middlewares/uploadMiddleware.js:28 | the extension check ignores case |

## Findings

| source | as written | input that shows it | evidently intended | confidence | as-written member | corrected member |
|---|---|---|---|---|---|---|
| Middlewares/authMiddleware.js:25 | the subject is read from `decoded.user.id`, but the signed claims (Controllers/authController.js:61-69) put it at the top level as `id` | any token from `registerUser` or `loginUser`: `decoded.user` is `undefined`, reading `.id` throws, and the answer is 401 "Invalid token" | read `decoded.id`, so that a token issued for a stored account admits that account | high, not executed | `AuthMiddleware.IssuedTokenRefused` | `AuthMiddleware.IssuedTokenAdmitted` |
| Controllers/employerController.js:46-77 | `location` is built from top-level `country`, `cityState`, `street`, `area` and `pincode`, keys the schema (lines 23-29) rejects | body `{"location": {"country": "India"}}`: validation passes, and the employer is stored with an empty location | store `req.body.location`, the nested object the schema validates | high, not executed | `EmployerController.LocationLost` | `EmployerController.LocationRoundTrip` |

Both halves are in the model:

- **Bearer tokens.**
  - `AuthMiddleware.Protect` is the handler as written.
  - `AuthMiddleware.ProtectCorrected` is the same gate reading `decoded.id`.
- **Employer location.**
  - `EmployerController.NewEmployerAsWritten` is the handler as written.
  - `EmployerController.NewEmployerCorrected` reads the nested object.
  - Both run the same `EmployerController.UpsertEmployer`.

## Left out

- `setResume`, `deleteResume` and `Middlewares/resumeUpload.js`: they write to the file system and to cloud storage.
- `setJobPreferences`: it `$set`s an object onto an array path, so its effect is decided by Mongoose casting. Editing and deleting job preferences are modelled.
- `getProfile`, `getJobByEmployer`, `getJobByKey` and `googleCallBack`: they only read and populate, or sign a token.
  - `googleCallBack` signs the same claims as `Token.Claims`.
- `JobModel.JobSummary`: the `getAllJobs` listing also carries each job's populated employer (company name, logo, location, website; Controllers/jobController.js:151-154). A summary has no employer field, because the join is not modelled.
- `JobController.ListingNewestFirst`: jobs carry no `createdAt`; the listing orders them by reverse insertion order. That agrees with `sort({createdAt: -1})` (Controllers/jobController.js:155) for jobs created in different milliseconds under a clock that does not go back. Jobs with equal `createdAt` are listed in reverse insertion order here, while MongoDB leaves their order unspecified.
- `populate`, the `getFullEmployer` join and the `.select("-_id -authId")` projection of `addEducation` (line 189): a reply carries the stored document, not the joined or projected one.
- The Google OAuth strategy set-up, and `Routes/*.js`, `index.js` and `config/dbConnect.js`: this is framework wiring.
- The upload directory and the disk writes of multer. Only the name, the filter and the size limit are modelled.
- Store failures, and CastErrors for malformed ids in path parameters: these reach the handlers' `catch` (500). Ids are modelled as already-cast values.
- Concurrency: requests are modelled one at a time, so check-then-write races are not captured.
- JSON numbers are integers, and floating point is not modelled.
- Case mapping covers ASCII letters only. JavaScript's `toLowerCase` also maps other letters.
- Joi's date parsing is a parameter (`parsesAsDate`).
- The e-mail and URI rules of Joi are approximated by simpler predicates (`Joi.IsEmail`, `Joi.IsUri`).
- `Joi.IsNumber`: accepts JSON integers and strings of decimal digits only. `Joi.number()` also converts signed, decimal, exponent and space-padded strings such as "-5" or " 7 ", and refuses integers beyond 2^53, so an employer `pincode` of "-5" is refused here and accepted by the handler.
- `EmployeeController.EditEntry`: a skill name that is an array or an object is answered with 500 before the duplicate query. Mongoose runs that query with an array as an `$in` match, so the handler can answer 400 "Skill already present" first.
- bcrypt: hashing is not modelled. A digest is kept as the salt and the password it was made from, and `AuthModel.Matches` compares the 72-byte keys bcrypt derives from the UTF-8 encoding, so passwords that agree on their first 72 bytes match (`AuthModel.LongPasswordsShareKey`). The model assumes that two different keys never share a digest.
- `AuthController.WrongPasswordRefused`: stated only for ASCII passwords without the zero character and shorter than 72 characters. Longer passwords can match a different password (`AuthController.LongPasswordTruncated`); non-ASCII passwords are not covered by a lemma. `jwt.sign` and `jwt.verify` are parameters; expiry is part of what `verify` decides.
- `AuthMiddleware.Gate`: for a subject that is neither an id nor missing, the exact CastError versus not-found split follows Mongoose's rules only approximately. Those values cannot come from the application's own tokens.
- `Passport.Verify`: `done(err)` is modelled for the errors the callback itself causes (an empty e-mail list, an empty address). Store failures are not modelled.
- `EmployerController.UpsertEmployer`: the "Employer Not Found" branch (line 87) is not modelled, because an upsert with `new: true` always returns a document.
- `UploadMiddleware.FileFilter`: the size limit `UploadMiddleware.MaxFileSize` (5 MiB) is a constant with a predicate, because multer enforces it while streaming.
