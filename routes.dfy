/**
 * The HTTP handlers of the job board API. Each handler validates the request body with
 * the insert schema, calls the store, and chooses the status: 400 for a body that does not
 * validate, 404 for an id the store does not hold, 401 for wrong credentials, 200 otherwise.
 */
module Routes {
  import opened Wrappers
  import opened OrderedMap
  import opened Schema
  import opened Storage
  import Auth

  /** The JSON a handler answers with. */
  datatype Payload =
    | Ack(message: string)                               // { success: true, message }
    | Error(error: string, details: Option<seq<Issue>>)  // { error, details? }
    | OneJob(job: JobListing)
    | Jobs(jobs: seq<JobListing>)
    | Submissions(submissions: seq<ContactSubmission>)

  datatype Response = Response(status: int, payload: Payload)

  /** What `parseInt(req.params.id)` gave: a number, or NaN for text that is not one. */
  datatype ParsedId = NaN | Int(value: int)

  /** Whether the store holds a listing under the parsed id; NaN equals no key. */
  predicate Present(m: seq<Entry<int, JobListing>>, id: ParsedId) {
    id.Int? && id.value in Keys(m)
  }

  const NotFound := Response(404, Error("Job listing not found", None))

  // ---------------------------------------------------------------------------
  // Contact form

  /** POST /api/contact */
  method PostContact(storage: MemStorage, body: Json, now: Timestamp) returns (response: Response)
    requires storage.Valid()
    modifies storage
    ensures storage.Valid()
    ensures response.status == 200 <==> Conforms(InsertContactSubmissionShape, body)
    ensures response.status != 200 ==>
      && response == Response(400, Error("Invalid form data", Some(Parse(InsertContactSubmissionShape, body).error)))
      && storage.Unchanged()
    ensures response.status == 200 ==>
      && response.payload == Ack("Contact form submitted successfully")
      && ContactCarried(body.fields, ParseInsertContactSubmission(body).value)
      && storage.contactSubmissions == old(storage.contactSubmissions) + [Entry(old(storage.currentContactId),
           NewContactSubmission(ParseInsertContactSubmission(body).value, old(storage.currentContactId), now))]
      && storage.currentContactId == old(storage.currentContactId) + 1
      && storage.users == old(storage.users) && storage.jobListings == old(storage.jobListings)
      && storage.currentUserId == old(storage.currentUserId) && storage.currentJobId == old(storage.currentJobId)
  {
    var validated := ParseInsertContactSubmission(body);
    if validated.Failure? {
      return Response(400, Error("Invalid form data", Some(validated.error)));
    }
    var submission := storage.CreateContactSubmission(validated.value, now);
    response := Response(200, Ack("Contact form submitted successfully"));
  }

  /** GET /api/contact: every submission, oldest first. */
  function GetContacts(storage: MemStorage): (r: Response)
    reads storage
    requires storage.Valid()
    ensures r.status == 200 && r.payload.Submissions?
    ensures |r.payload.submissions| == |storage.contactSubmissions|
    ensures forall i :: 0 <= i < |r.payload.submissions| ==>
              Entry(r.payload.submissions[i].id, r.payload.submissions[i]) == storage.contactSubmissions[i]
  {
    Response(200, Submissions(storage.GetAllContactSubmissions()))
  }

  // ---------------------------------------------------------------------------
  // Job listings

  /** GET /api/jobs: the public list, active listings only. */
  function GetJobs(storage: MemStorage): (r: Response)
    reads storage
    requires storage.Valid()
    ensures r.status == 200 && r.payload.Jobs?
    ensures forall j :: j in r.payload.jobs <==> j in storage.GetAllJobListings() && j.isActive
    ensures forall i, j :: 0 <= i < j < |r.payload.jobs| ==> r.payload.jobs[i].id < r.payload.jobs[j].id
  {
    storage.ActiveJobListingsAscending();
    Response(200, Jobs(storage.GetActiveJobListings()))
  }

  /** GET /api/jobs/all: every listing, active or not, oldest first. */
  function GetAllJobs(storage: MemStorage): (r: Response)
    reads storage
    requires storage.Valid()
    ensures r.status == 200 && r.payload.Jobs?
    ensures |r.payload.jobs| == |storage.jobListings|
    ensures forall i :: 0 <= i < |r.payload.jobs| ==> storage.GetJobListing(r.payload.jobs[i].id) == Some(r.payload.jobs[i])
    ensures forall i, j :: 0 <= i < j < |r.payload.jobs| ==> r.payload.jobs[i].id < r.payload.jobs[j].id
  {
    Response(200, Jobs(storage.GetAllJobListings()))
  }

  /** GET /api/jobs/:id */
  function GetJob(storage: MemStorage, id: ParsedId): (r: Response)
    reads storage
    requires storage.Valid()
    ensures r.status == 200 || r.status == 404
    ensures r.status == 404 <==> !Present(storage.jobListings, id)
    ensures r.status == 404 ==> r == NotFound
    ensures r.status == 200 ==> r.payload.OneJob? && r.payload.job.id == id.value
                                && Entry(id.value, r.payload.job) in storage.jobListings
  {
    var job := if id.NaN? then None else storage.GetJobListing(id.value);
    if job.None? then NotFound else Response(200, OneJob(job.value))
  }

  /** POST /api/jobs */
  method PostJob(storage: MemStorage, body: Json, now: Timestamp) returns (response: Response)
    requires storage.Valid()
    modifies storage
    ensures storage.Valid()
    ensures response.status == 200 <==> Conforms(InsertJobListingShape, body)
    ensures response.status != 200 ==>
      && response == Response(400, Error("Invalid job data", Some(Parse(InsertJobListingShape, body).error)))
      && storage.Unchanged()
    ensures response.status == 200 ==>
      && JobListingCarried(body.fields, ParseInsertJobListing(body).value)
      && response.payload == OneJob(NewJobListing(ParseInsertJobListing(body).value, old(storage.currentJobId), now))
      && storage.jobListings == old(storage.jobListings) + [Entry(old(storage.currentJobId), response.payload.job)]
      && storage.currentJobId == old(storage.currentJobId) + 1
      && storage.users == old(storage.users) && storage.contactSubmissions == old(storage.contactSubmissions)
      && storage.currentUserId == old(storage.currentUserId) && storage.currentContactId == old(storage.currentContactId)
  {
    var validated := ParseInsertJobListing(body);
    if validated.Failure? {
      return Response(400, Error("Invalid job data", Some(validated.error)));
    }
    var job := storage.CreateJobListing(validated.value, now);
    response := Response(200, OneJob(job));
  }

  /** PUT /api/jobs/:id: validation first, then the lookup. */
  method PutJob(storage: MemStorage, id: ParsedId, body: Json) returns (response: Response)
    requires storage.Valid()
    modifies storage
    ensures storage.Valid()
    ensures response.status == 200 || response.status == 400 || response.status == 404
    ensures response.status == 400 <==> !Conforms(UpdateJobListingShape, body)
    ensures response.status == 400 ==>
      response == Response(400, Error("Invalid job data", Some(Parse(UpdateJobListingShape, body).error)))
    ensures response.status == 404 <==> Conforms(UpdateJobListingShape, body) && !Present(old(storage.jobListings), id)
    ensures response.status == 404 ==> response == NotFound
    ensures response.status != 200 ==> storage.Unchanged()
    ensures response.status == 200 ==>
      && PartialCarried(body.fields, ParsePartialJobListing(body).value)
      && response.payload == OneJob(Merge(Get(old(storage.jobListings), id.value).value, ParsePartialJobListing(body).value))
      && storage.jobListings == old(storage.jobListings)[Position(old(storage.jobListings), id.value) := Entry(id.value, response.payload.job)]
    ensures id.Int? ==> forall k :: k != id.value ==> Get(storage.jobListings, k) == Get(old(storage.jobListings), k)
    ensures id.NaN? ==> storage.jobListings == old(storage.jobListings)
    ensures storage.users == old(storage.users) && storage.contactSubmissions == old(storage.contactSubmissions)
    ensures storage.currentUserId == old(storage.currentUserId) && storage.currentJobId == old(storage.currentJobId)
    ensures storage.currentContactId == old(storage.currentContactId)
  {
    var validated := ParsePartialJobListing(body);
    if validated.Failure? {
      return Response(400, Error("Invalid job data", Some(validated.error)));
    }
    var job: Option<JobListing> := None;
    if id.Int? {
      job := storage.UpdateJobListing(id.value, validated.value);
    }
    if job.None? {
      return NotFound;
    }
    response := Response(200, OneJob(job.value));
  }

  /** DELETE /api/jobs/:id */
  method DeleteJob(storage: MemStorage, id: ParsedId) returns (response: Response)
    requires storage.Valid()
    modifies storage
    ensures storage.Valid()
    ensures response.status == 200 || response.status == 404
    ensures response.status == 404 <==> !Present(old(storage.jobListings), id)
    ensures response.status == 404 ==> response == NotFound && storage.Unchanged()
    ensures response.status == 200 ==>
      && response.payload == Ack("Job listing deleted successfully")
      && storage.jobListings == Delete(old(storage.jobListings), id.value)
      && storage.GetJobListing(id.value).None?
      && |storage.jobListings| == |old(storage.jobListings)| - 1
    ensures id.Int? ==> forall k :: k != id.value ==> Get(storage.jobListings, k) == Get(old(storage.jobListings), k)
    ensures id.NaN? ==> storage.jobListings == old(storage.jobListings)
    ensures storage.users == old(storage.users) && storage.contactSubmissions == old(storage.contactSubmissions)
    ensures storage.currentUserId == old(storage.currentUserId) && storage.currentJobId == old(storage.currentJobId)
    ensures storage.currentContactId == old(storage.currentContactId)
  {
    var deleted := false;
    if id.Int? {
      deleted := storage.DeleteJobListing(id.value);
    }
    if !deleted {
      return NotFound;
    }
    response := Response(200, Ack("Job listing deleted successfully"));
  }

  // ---------------------------------------------------------------------------
  // HR login

  /**
   * Reading `body.username` in JavaScript: an object gives its property (undefined when
   * absent, here None); any other non-null value has no such property.
   */
  function Property(body: Json, name: string): Option<Json> {
    if body.JObject? && name in body.fields then Some(body.fields[name]) else None
  }

  /**
   * POST /api/auth/login. Destructuring a null body throws, which the handler answers
   * with 500; the credentials are compared with `===`, so only JSON strings can match.
   */
  function Login(body: Json): (r: Response)
    ensures r.status == 500 <==> body.JNull?
    ensures r.status == 200 ==> r.payload == Ack("Login successful")
    ensures r.status == 401 ==> r.payload == Error("Invalid credentials", None)
    ensures r.status == 500 ==> r.payload == Error("Login failed", None)
    ensures r.status == 200 || r.status == 401 || r.status == 500
  {
    if body.JNull? then Response(500, Error("Login failed", None))
    else if Property(body, "username") == Some(JString("HRSRCE"))
         && Property(body, "password") == Some(JString("@SRCEhr1314"))
    then Response(200, Ack("Login successful"))
    else Response(401, Error("Invalid credentials", None))
  }

  /** The body `loginHR` posts: `JSON.stringify({ username, password })`. */
  function CredentialsBody(username: string, password: string): Json {
    JObject(map["username" := JString(username), "password" := JString(password)])
  }

  /**
   * The server accepts exactly the bodies whose username and password are strings that the
   * client-side check accepts, so the two hard-coded pairs agree.
   */
  lemma LoginAgreesWithClientCheck(body: Json)
    ensures Login(body).status == 200 <==>
      && Property(body, "username").Some? && Property(body, "username").value.JString?
      && Property(body, "password").Some? && Property(body, "password").value.JString?
      && Auth.IsValidCredentials(Property(body, "username").value.str, Property(body, "password").value.str)
  {
  }

  /** What `loginHR` sends is accepted iff `isValidCredentials` accepts the same pair. */
  lemma LoginAcceptsClientPair(username: string, password: string)
    ensures Login(CredentialsBody(username, password)).status == 200 <==> Auth.IsValidCredentials(username, password)
    ensures !Auth.IsValidCredentials(username, password) ==> Login(CredentialsBody(username, password)).status == 401
  {
    var body := CredentialsBody(username, password);
    assert Property(body, "username") == Some(JString(username));
    assert Property(body, "password") == Some(JString(password));
  }
}
