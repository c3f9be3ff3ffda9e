# Job board store and API, modelled in Dafny

This project models the server side of the SRCE job board. It covers four parts.

- `MemStorage`, the in-memory store. It holds users, job listings and contact submissions in three insertion-ordered maps, each with its own id counter, and loads three sample listings when it is built.
- The record shapes of the three tables and the insert schemas derived from them. These decide which fields a request body must carry, which it may leave out and which the server assigns.
- The HTTP handlers. Each validates a body, calls the store and picks the status: 400, 401, 404, 500 or 200.
- The client-side credential check `isValidCredentials`.

The modules are:

- `Wrappers`: `Option` and `Result`.
- `OrderedMap`: a JavaScript `Map` as a sequence of key/value entries.
  - Setting a present key replaces its entry where it stands.
  - Setting a new key appends an entry.
  - Deleting a key splices its entry out.
  - Iteration is the sequence order.
- `Schema`:
  - the tables as column lists;
  - the insert shapes derived from them the way drizzle-zod derives them (a column that is nullable or has a default may be left out, and only a nullable column accepts null);
  - a validator `Parse` standing in for zod's `parse`;
  - the typed records.
- `Storage`: the `MemStorage` class and the pure functions that specify it (`Merge`, `NewJobListing`, `ActiveOnly`, `FindByUsername`).
- `Routes`: one member per handler of `registerRoutes`.
- `Auth`: `IsValidCredentials`.

`MemStorage.Valid()` is the store's invariant. In each of the three maps:

- every key was issued by that map's counter, so it is at least 1 and below the counter;
- the keys are strictly ascending in iteration order, hence unique;
- every record carries the id it is stored under.

Every storage method keeps this invariant and says exactly what its new state is.

## Model

| member | source | states |
|---|---|---|
| OrderedMap.Values | SRCEWLP/server/storage.ts:117-119 | `Array.from(map.values())`: the values in iteration order. `Storage.MemStorage.GetAllJobListings` and `GetAllContactSubmissions` state what this gives for the store. |
| OrderedMap.Get | SRCEWLP/server/storage.ts:125-127 | `Map.get`: a value exactly when the key is present, and then the value stored under that key. |
| OrderedMap.Set | SRCEWLP/server/storage.ts:139 | `Map.set`: the new entry is in the map, no other new entry appears, and the size grows by one exactly when the key was new. |
| OrderedMap.SetSpec | SRCEWLP/server/storage.ts:148 | After `set(k, v)`, `get(k)` is `v` and every other key reads as before. A present key keeps its place in iteration order; a new key goes last. |
| OrderedMap.Delete | SRCEWLP/server/storage.ts:153 | `Map.delete`: only entries of the old map remain, the size drops by one exactly when the key was present, and an absent key leaves the map as it was. |
| OrderedMap.DeleteSpec | SRCEWLP/server/storage.ts:152-154 | After `delete(k)` on a map with unique keys, `get(k)` finds nothing and every other key reads as before. The keys stay unique. |
| Schema.InsertFieldAccepts | SRCEWLP/shared/schema.ts:11-34 | The field drizzle-zod derives from a column accepts a body exactly when: a missing key belongs to a nullable column or one with a default; a null belongs to a nullable column; any other value has the column's kind. |
| Schema.InsertShapeConforms | SRCEWLP/shared/schema.ts:36-49 | A body passes a table's `createInsertSchema` exactly when it is an object and every column's rule accepts it. |
| Schema.Omit | SRCEWLP/shared/schema.ts:41-49 | `.omit`: a field is kept exactly when it was in the shape and its name is not listed. |
| Schema.Pick | SRCEWLP/shared/schema.ts:36-39 | `.pick`: a field is kept exactly when it was in the shape and its name is listed. |
| Schema.PartialShapeConforms | SRCEWLP/server/routes.ts:91 | `.partial()` accepts a body exactly when it is an object and every field it does carry is accepted by the original shape. Any field may be left out; none may be malformed. |
| Schema.FieldAccepts | SRCEWLP/shared/schema.ts:11-34 | zod's rule for one field: a missing key is accepted only when the field is optional, a null only when it is nullable, and any other value only when it has the column's kind. `Schema.FieldIssue` reports an issue exactly when this rule fails. |
| Schema.Conforms | SRCEWLP/shared/schema.ts:41-49 | A body passes `parse` when it is an object and every field of the shape accepts it. `Schema.Parse` succeeds exactly on these bodies. |
| Schema.FieldIssue | SRCEWLP/shared/schema.ts:5-34 | A field yields an issue exactly when the body does not satisfy it. A missing required field gets code Required; a null in a non-nullable field or a value of the wrong kind gets InvalidType. |
| Schema.Issues | SRCEWLP/shared/schema.ts:41-49 | No issues exactly when every field of the shape accepts the body. Every issue names a field that rejects the body. Every required field that is missing is reported as Required. |
| Schema.EveryRejectedFieldReported | SRCEWLP/server/routes.ts:98-99 | Every field that rejects the body gets its issue in the 400 details. This covers a missing required field, a null where null is not allowed, and a value of the wrong kind. |
| Schema.Parse | SRCEWLP/shared/schema.ts:36-49 | Succeeds exactly when the body is an object that conforms to the shape. The result keeps exactly the body's keys that the shape names, with their values. A failure always carries at least one issue. |
| Schema.ParseInsertJobListing | SRCEWLP/shared/schema.ts:41-44 | Accepts exactly the bodies conforming to the job listing insert shape. Each typed field is what the body carries under that name; an optional field left out is None. A refusal reports the issues of `Parse`. |
| Schema.ParsePartialJobListing | SRCEWLP/server/routes.ts:91 | The same as the above for `.partial()`: any field may be absent. Each present field is what the body carries. |
| Schema.ParseInsertContactSubmission | SRCEWLP/shared/schema.ts:46-49 | Accepts exactly the conforming contact bodies. `company` is distinguished as left out, null or text, as the body has it. |
| Schema.ParseInsertUser | SRCEWLP/shared/schema.ts:36-39 | Accepts exactly the conforming user bodies, and carries their username and password. |
| Schema.MissingFieldReported | SRCEWLP/shared/schema.ts:41-49 | An object body missing a required field of any shape is refused, and the refusal names that field with code Required. |
| Schema.MissingTitleReported | SRCEWLP/shared/schema.ts:41-44 | A job listing body without `title` is refused, and the refusal names `title`. |
| Schema.JobListingRequiredFields | SRCEWLP/shared/schema.ts:13-22 | A job listing field is required exactly when it is one of the seven text fields title, department, location, type, experience, description and requirements. |
| Schema.DefaultedFieldsRejectNull | SRCEWLP/shared/schema.ts:20-22 | skills, googleFormUrl and isActive may be left out but not sent as null, both in a new listing and in an update. |
| Schema.EmptyUpdateAccepted | SRCEWLP/server/routes.ts:91 | The empty object is a valid update and carries no field. |
| Schema.UnnamedKeyDropped | SRCEWLP/shared/schema.ts:41-49 | A key the shape does not name never survives parsing. |
| Schema.CompanyOnlyNullableContactField | SRCEWLP/shared/schema.ts:26-34 | In a contact body, `company` is the only field that may be null and the only one that may be left out. |
| Schema.InsertUserShapeFollowsTable | SRCEWLP/shared/schema.ts:36-39 | The user insert shape is the users table's username and password picked, and it names nothing else. |
| Schema.InsertJobListingShapeFollowsTable | SRCEWLP/shared/schema.ts:11-44 | The job listing insert shape is the table's insert shape with `id` and `createdAt` omitted. |
| Schema.ServerFieldsNotInJobShape | SRCEWLP/shared/schema.ts:41-44 | Neither `id` nor `createdAt` is a field of the job listing insert shape. |
| Schema.UpdateShapeIsPartial | SRCEWLP/server/routes.ts:91 | The update shape is the job listing insert shape with every field made optional. |
| Schema.ServerFieldsNotInUpdateShape | SRCEWLP/server/routes.ts:91 | Neither `id` nor `createdAt` is a field of an update body, so an update cannot change them. |
| Schema.InsertContactShapeFollowsTable | SRCEWLP/shared/schema.ts:26-49 | The contact insert shape is the contact table's insert shape with `id` and `createdAt` omitted. |
| Schema.ServerFieldsNotInContactShape | SRCEWLP/shared/schema.ts:46-49 | Neither `id` nor `createdAt` is a field of the contact insert shape. |
| Storage.FindByUsername | SRCEWLP/server/storage.ts:104-108 | None exactly when no user has the name. Otherwise the result is the first user in the sequence with exactly that name. |
| Storage.FindByUsernameAppend | SRCEWLP/server/storage.ts:104-115 | Appending a user never changes whom a name already finds. A second user with a taken name is never found by name. |
| Storage.ActiveOnly | SRCEWLP/server/storage.ts:121-123 | A listing is in the result exactly when it is in the input and active. The result is no longer than the input. |
| Storage.ActiveOnlyAppend | SRCEWLP/server/storage.ts:121-123 | The filter distributes over concatenation, so it keeps the input order. |
| Storage.ActiveOnlyAllActive | SRCEWLP/server/storage.ts:121-123 | When every listing is active, the filter returns the input unchanged. |
| Storage.InitialJobs | SRCEWLP/server/storage.ts:52-92 | The three sample listings: all active, all with the default form URL and the start-up time, all full-time in Nellore. |
| Storage.Seeded | SRCEWLP/server/storage.ts:94-97 | The i-th listing is stored under the i-th id after `first`, and carries that id; it is otherwise the listing as given. |
| Storage.SeededSamples | SRCEWLP/server/storage.ts:39-98 | Seeding the samples from id 1 stores them under ids 1, 2 and 3, and filtering them for active listings keeps all three. |
| Storage.NewJobListing | SRCEWLP/server/storage.ts:131-138 | The new listing carries the given id and creation time. It equals the all-defaults listing with the body applied as an update, so a field the body supplies wins and a field it leaves out keeps its column default. |
| Storage.NewJobListingFollowsTable | SRCEWLP/server/storage.ts:129-141 | The stored listing has the new id and the creation time, and keeps every field the body supplied. Each field the body left out gets that column's default in the jobListings table: [] for skills, the fixed form URL, and true for isActive. |
| Storage.Merge | SRCEWLP/server/storage.ts:147 | Merging an update never changes `id` or `createdAt`. |
| Storage.MergeNothing | SRCEWLP/server/storage.ts:147 | An update with no fields leaves the listing as it was. |
| Storage.MergeIdempotent | SRCEWLP/server/storage.ts:147 | Applying the same update twice is the same as applying it once. |
| Storage.MergeThen | SRCEWLP/server/storage.ts:147 | Two updates in turn equal one update combining them field by field, the later one winning. |
| Storage.MergeAll | SRCEWLP/server/storage.ts:147 | An update carrying every field replaces everything except `id` and `createdAt`. |
| Storage.MergeTitleOnly | SRCEWLP/server/storage.ts:147 | An update of the title alone changes the title and nothing else. |
| Storage.StoredCompany | SRCEWLP/server/storage.ts:161 | The stored company is text exactly when the body sent text, and it is that text. When the field was left out or null, it is stored as null. |
| Storage.NewContactSubmission | SRCEWLP/server/storage.ts:158-163 | The new submission carries the given id and creation time, and the body's names, email and message. Its company is `company ?? null` of the body (`Storage.StoredCompany`): the text when the body sent text, otherwise null. |
| Storage.MemStorage.constructor | SRCEWLP/server/storage.ts:39-49 | A new store satisfies the invariant. It holds exactly the three sample listings under ids 1, 2 and 3, all active, so the active view equals the full view. Users and contact submissions are empty; the counters are 1, 4 and 1. |
| Storage.MemStorage.InitializeJobListings | SRCEWLP/server/storage.ts:51-98 | Each seed listing is stored in order under the next id and carries that id. The job counter advances by the number of seeds, and the invariant holds throughout the loop. |
| Storage.MemStorage.GetUser | SRCEWLP/server/storage.ts:100-102 | Some exactly when the id is a key, and then the stored user under that id, carrying that id. |
| Storage.MemStorage.GetUserByUsername | SRCEWLP/server/storage.ts:104-108 | None exactly when no stored user has the name. Otherwise the result is a stored user with that name, the one `getUser` finds under its id, and the user with the smallest id among those with the name. |
| Storage.MemStorage.GetAllJobListings | SRCEWLP/server/storage.ts:117-119 | One listing per entry, in ascending id order, each exactly what `getJobListing` returns for its id. |
| Storage.MemStorage.GetActiveJobListings | SRCEWLP/server/storage.ts:121-123 | A listing is returned exactly when `getAllJobListings` returns it and it is active. |
| Storage.MemStorage.ActiveJobListingsAscending | SRCEWLP/server/storage.ts:121-123 | The active listings come out in strictly ascending id order, so each appears once and in insertion order. |
| Storage.ActiveOnlyAscending | SRCEWLP/server/storage.ts:122 | `.filter` of a list with strictly ascending ids keeps them strictly ascending. |
| Storage.MemStorage.GetJobListing | SRCEWLP/server/storage.ts:125-127 | Some exactly when the id is a key, and then the listing stored under it, carrying that id. |
| Storage.MemStorage.GetAllContactSubmissions | SRCEWLP/server/storage.ts:168-170 | Every stored submission, in insertion order, which is ascending id order. |
| Storage.MemStorage.CreateUser | SRCEWLP/server/storage.ts:110-115 | The user gets the current counter as id and is appended; the id exceeds every existing key, and the counter advances by one. No duplicate-name check is made, and a name that already found a user keeps finding that user. Nothing else changes. |
| Storage.MemStorage.CreateJobListing | SRCEWLP/server/storage.ts:129-141 | The listing built from the body with its defaults gets the current counter as id and `now` as creation time. It is appended, `getJobListing` finds it, its id exceeds every existing key, and the counter advances by one. |
| Storage.MemStorage.UpdateJobListing | SRCEWLP/server/storage.ts:143-150 | The result is present exactly when the id was. When it is absent, the store is unchanged. When it is present, the merged listing replaces the old one where it stands. Every other id reads as before, the key order is kept, and the counters are unchanged. |
| Storage.MemStorage.DeleteJobListing | SRCEWLP/server/storage.ts:152-154 | Returns true exactly when the id was present. The entry is spliced out, `getJobListing` then finds nothing under the id, and every other id reads as before. The counter is unchanged and stays above the deleted id, so that id is never issued again. |
| Storage.MemStorage.CreateContactSubmission | SRCEWLP/server/storage.ts:156-166 | The submission, with `company ?? null`, gets the current counter as id and `now` as creation time. It is appended, and the counter advances by one. |
| Routes.PostContact | SRCEWLP/server/routes.ts:9-26 | 200 exactly when the body conforms to the contact shape, and then exactly one submission built from the body is appended. Otherwise 400 "Invalid form data" with the validation issues, and the store is unchanged. |
| Routes.GetContacts | SRCEWLP/server/routes.ts:29-36 | 200 with every stored submission, in insertion order. |
| Routes.GetJobs | SRCEWLP/server/routes.ts:39-46 | 200 with exactly the active listings of `getAllJobListings`, in ascending id order. Together these fix the list as the active listings in insertion order, each once. |
| Routes.GetAllJobs | SRCEWLP/server/routes.ts:49-56 | 200 with every listing, active or not, in ascending id order. |
| Routes.GetJob | SRCEWLP/server/routes.ts:59-70 | 404 "Job listing not found" exactly when no listing is stored under the parsed id; NaN matches none. Otherwise 200 with the listing stored under that id. |
| Routes.PostJob | SRCEWLP/server/routes.ts:73-85 | 200 exactly when the body conforms to the job listing shape. Then the stored listing is built from the body with defaults and the next id, appended, and returned. Otherwise 400 "Invalid job data" with the issues, and the store is unchanged. |
| Routes.PutJob | SRCEWLP/server/routes.ts:88-104 | The answer is always 200, 400 or 404. Validation first: 400 exactly when the body does not conform to the partial shape. 404 exactly when it conforms but the id is absent, so a valid body with a present id gets 200. Any non-200 answer leaves the store unchanged. On 200 the merged listing is returned and replaces the old one in place, and nothing else changes. |
| Routes.DeleteJob | SRCEWLP/server/routes.ts:107-118 | 404 exactly when the id was absent, and then the store is unchanged. Otherwise 200 with success, and the listing is gone while every other id reads as before. |
| Routes.Login | SRCEWLP/server/routes.ts:121-134 | 500 "Login failed" exactly when the body is null. 200 "Login successful" or 401 "Invalid credentials" otherwise. No other status is possible. |
| Routes.LoginAgreesWithClientCheck | SRCEWLP/server/routes.ts:123-130 | The login answers 200 exactly when the body's username and password are strings that `isValidCredentials` accepts. |
| Routes.LoginAcceptsClientPair | SRCEWLP/client/src/lib/auth.ts:23-25 | A body posted with a username and password is accepted exactly when `isValidCredentials` accepts that pair, and is answered 401 otherwise. |
| Auth.IsValidCredentials | SRCEWLP/client/src/lib/auth.ts:23-25 | Exact, case-sensitive comparison with the one hard-coded pair. The `Auth` lemmas below state what it accepts and rejects, and `Routes.LoginAgreesWithClientCheck` shows that the server accepts the same pair. |
| Auth.AcceptsHrPair | SRCEWLP/client/src/lib/auth.ts:23-25 | ("HRSRCE", "@SRCEhr1314") is accepted. |
| Auth.AcceptsOnlyHrPair | SRCEWLP/client/src/lib/auth.ts:24 | An accepted pair is exactly ("HRSRCE", "@SRCEhr1314"). |
| Auth.RejectsOtherUsername | SRCEWLP/client/src/lib/auth.ts:24 | Any other username is rejected, whatever the password. |
| Auth.RejectsOtherPassword | SRCEWLP/client/src/lib/auth.ts:24 | Any other password is rejected, whatever the username. |
| Auth.CaseSensitive | SRCEWLP/client/src/lib/auth.ts:24 | The comparison is case-sensitive: "hrsrce" is rejected. |

## Left out

- Route ids: `parseInt(req.params.id)` is not modelled. The handlers take its outcome, either a number or NaN. NaN never equals a key.
- Numbers: ids and counters are unbounded integers. JavaScript's 2^53 limit on exact integers is not modelled.
- `createdAt`: each `new Date()` is a `now` parameter.
  - The three sample listings share one `now`; the source calls `new Date()` once per listing.
- JSON numbers: a JSON number is an integer; floating point is not modelled.
- Status 500: the branches of the contact, job listing and job handlers that answer 500 when the store throws are left out. The in-memory store never throws.
- Logging: `console.log` of a new submission is not modelled.
- Request plumbing: the Express app, the HTTP server, `res.json` serialisation and the JSON body parser are not part of this model.
  - `Routes.Login` gives 500 for a null body, as the handler's destructuring would. Whether the body parser lets a bare `null` through is outside the model.
- Validation library: zod and drizzle-zod themselves are not modelled. `Parse` checks kinds, presence and null only.
  - Issue messages are not modelled, and neither is the path of an issue inside a `skills` array.
  - Issue count for `skills`: zod reports one issue per non-string item, under the path `["skills", i]`. The model reports one issue for the whole field.
  - `Schema.IssueCode` merges zod's code with its message. zod reports a missing field with code `invalid_type` and the message "Required"; the model's code `Required` stands for that pair, and `InvalidType` for every other `invalid_type` issue.
  - The issue for a non-object body is one issue with an empty path.
- Username uniqueness: the `unique()` constraint on `users.username` applies only to a database, not to `MemStorage`. The model follows `createUser`, which does not check names. `Storage.FindByUsernameAppend` shows what that means for lookups.
- `Storage.MemStorage.InitializeJobListings`: it takes the seed list as a parameter. The constructor passes it `InitialJobs(now)`, the three sample listings of the source.
- `loginHR`: it is a network call, so it is not modelled. `Routes.CredentialsBody` is the body it would post.
- Client pages and components: they are rendering only.
- Async: `async`/`Promise` is not modelled. Every storage method completes at once, so each is an ordinary method.
