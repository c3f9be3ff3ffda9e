/**
 * The in-memory store behind the job board: three JavaScript `Map`s keyed by numeric id
 * (users, job listings, contact submissions), each with its own id counter that the create
 * operations advance, and three sample job listings loaded at construction.
 */
module Storage {
  import opened Wrappers
  import opened OrderedMap
  import opened Schema

  // ---------------------------------------------------------------------------
  // Invariants shared by the three collections

  /** Keys ascend strictly and lie in [1, next): every key was issued by the counter. */
  ghost predicate IssuedKeys<V>(m: seq<Entry<int, V>>, next: int) {
    && next >= 1
    && (forall i :: 0 <= i < |m| ==> 1 <= m[i].key < next)
    && (forall i, j :: 0 <= i < j < |m| ==> m[i].key < m[j].key)
  }

  ghost predicate UserTable(m: seq<Entry<int, User>>, next: int) {
    IssuedKeys(m, next) && forall e :: e in m ==> e.value.id == e.key
  }

  ghost predicate JobTable(m: seq<Entry<int, JobListing>>, next: int) {
    IssuedKeys(m, next) && forall e :: e in m ==> e.value.id == e.key
  }

  ghost predicate ContactTable(m: seq<Entry<int, ContactSubmission>>, next: int) {
    IssuedKeys(m, next) && forall e :: e in m ==> e.value.id == e.key
  }

  lemma IssuedKeysUnique<V>(m: seq<Entry<int, V>>, next: int)
    requires IssuedKeys(m, next)
    ensures UniqueKeys(m)
  {
  }

  /** Setting the next key appends it, and the counter may then move past it. */
  lemma IssueNext<V>(m: seq<Entry<int, V>>, next: int, v: V)
    requires IssuedKeys(m, next)
    ensures Set(m, next, v) == m + [Entry(next, v)]
    ensures IssuedKeys(m + [Entry(next, v)], next + 1)
  {
    assert forall i :: 0 <= i < |m| ==> Keys(m)[i] < next;
  }

  lemma UserTableNext(m: seq<Entry<int, User>>, next: int, v: User)
    requires UserTable(m, next) && v.id == next
    ensures Set(m, next, v) == m + [Entry(next, v)]
    ensures UserTable(m + [Entry(next, v)], next + 1)
  {
    IssueNext(m, next, v);
  }

  lemma JobTableNext(m: seq<Entry<int, JobListing>>, next: int, v: JobListing)
    requires JobTable(m, next) && v.id == next
    ensures Set(m, next, v) == m + [Entry(next, v)]
    ensures JobTable(m + [Entry(next, v)], next + 1)
  {
    IssueNext(m, next, v);
  }

  lemma ContactTableNext(m: seq<Entry<int, ContactSubmission>>, next: int, v: ContactSubmission)
    requires ContactTable(m, next) && v.id == next
    ensures Set(m, next, v) == m + [Entry(next, v)]
    ensures ContactTable(m + [Entry(next, v)], next + 1)
  {
    IssueNext(m, next, v);
  }

  /** Replacing the listing under a present key keeps the keys, so the invariant too. */
  lemma JobTableReplace(m: seq<Entry<int, JobListing>>, next: int, k: int, v: JobListing)
    requires JobTable(m, next) && k in Keys(m) && v.id == k
    ensures Set(m, k, v) == m[Position(m, k) := Entry(k, v)]
    ensures JobTable(Set(m, k, v), next)
  {
    var r := Set(m, k, v);
    var p := Position(m, k);
    assert forall i :: 0 <= i < |r| ==> r[i].key == m[i].key;
    forall e | e in r ensures e.value.id == e.key {
      var i :| 0 <= i < |r| && r[i] == e;
      assert i != p ==> r[i] == m[i];
    }
  }

  /** The entry at `i` once the entry at `p` is spliced out. */
  lemma SpliceAt<T>(m: seq<T>, p: nat, i: nat)
    requires p < |m| && i < |m| - 1
    ensures (m[..p] + m[p + 1..])[i] == m[if i < p then i else i + 1]
  {
  }

  /** Deleting a key keeps the keys issued and ascending; what remains was there before. */
  lemma DeleteIssued<V>(m: seq<Entry<int, V>>, next: int, k: int)
    requires IssuedKeys(m, next)
    ensures IssuedKeys(Delete(m, k), next)
    ensures forall e :: e in Delete(m, k) ==> e in m
  {
    if k in Keys(m) {
      var p := Position(m, k);
      var r := m[..p] + m[p + 1..];
      assert Delete(m, k) == r;
      forall i | 0 <= i < |r| ensures r[i] in m && 1 <= r[i].key < next {
        SpliceAt(m, p, i);
      }
      forall i, j | 0 <= i < j < |r| ensures r[i].key < r[j].key {
        SpliceAt(m, p, i);
        SpliceAt(m, p, j);
      }
      forall e | e in r ensures e in m {
        var i :| 0 <= i < |r| && r[i] == e;
        SpliceAt(m, p, i);
      }
    }
  }

  lemma JobTableDelete(m: seq<Entry<int, JobListing>>, next: int, k: int)
    requires JobTable(m, next)
    ensures JobTable(Delete(m, k), next)
  {
    DeleteIssued(m, next, k);
  }

  /** One more sample listing stored: the stored entries grow by that listing under its id. */
  lemma SeededStep(jobs: seq<JobListing>, first: int, i: nat)
    requires i < |jobs|
    ensures Seeded(jobs[..i + 1], first) == Seeded(jobs[..i], first) + [Entry(first + i, jobs[i].(id := first + i))]
  {
  }

  // ---------------------------------------------------------------------------
  // Lookups over the values of a map

  /** `Array.from(users.values()).find(user => user.username === username)`. */
  function FindByUsername(us: seq<User>, username: string): (r: Option<User>)
    ensures r.None? <==> forall i :: 0 <= i < |us| ==> us[i].username != username
    ensures r.Some? ==> exists i :: 0 <= i < |us| && us[i] == r.value && r.value.username == username
                                    && forall j :: 0 <= j < i ==> us[j].username != username
  {
    if us == [] then None
    else if us[0].username == username then Some(us[0])
    else
      var r := FindByUsername(us[1..], username);
      assert forall i :: 1 <= i < |us| ==> us[i] == us[1..][i - 1];
      r
  }

  /**
   * Adding a user never changes whom a name already finds: the earlier user keeps winning,
   * so a second account with the same username can never be looked up by name.
   */
  lemma {:induction false} FindByUsernameAppend(us: seq<User>, u: User, username: string)
    ensures FindByUsername(us + [u], username)
         == if FindByUsername(us, username).Some? then FindByUsername(us, username)
            else if u.username == username then Some(u) else None
  {
    if us != [] {
      assert (us + [u])[1..] == us[1..] + [u];
      FindByUsernameAppend(us[1..], u, username);
    }
  }

  /** `jobs.filter(job => job.isActive)`. */
  function ActiveOnly(jobs: seq<JobListing>): (r: seq<JobListing>)
    ensures forall j :: j in r <==> j in jobs && j.isActive
    ensures |r| <= |jobs|
  {
    if jobs == [] then []
    else (if jobs[0].isActive then [jobs[0]] else []) + ActiveOnly(jobs[1..])
  }

  /** The filter keeps order: filtering a concatenation concatenates the filtered parts. */
  lemma {:induction false} ActiveOnlyAppend(a: seq<JobListing>, b: seq<JobListing>)
    ensures ActiveOnly(a + b) == ActiveOnly(a) + ActiveOnly(b)
  {
    if a != [] {
      var head := if a[0].isActive then [a[0]] else [];
      assert (a + b)[0] == a[0];
      assert (a + b)[1..] == a[1..] + b;
      calc {
        ActiveOnly(a + b);
        head + ActiveOnly(a[1..] + b);
        { ActiveOnlyAppend(a[1..], b); }
        head + (ActiveOnly(a[1..]) + ActiveOnly(b));
        (head + ActiveOnly(a[1..])) + ActiveOnly(b);
        ActiveOnly(a) + ActiveOnly(b);
      }
    } else {
      assert a + b == b;
    }
  }

  /** Filtering a list whose ids are strictly ascending leaves them strictly ascending. */
  lemma {:induction false} ActiveOnlyAscending(jobs: seq<JobListing>)
    requires forall i, j :: 0 <= i < j < |jobs| ==> jobs[i].id < jobs[j].id
    ensures forall i, j :: 0 <= i < j < |ActiveOnly(jobs)| ==> ActiveOnly(jobs)[i].id < ActiveOnly(jobs)[j].id
  {
    if jobs != [] {
      ActiveOnlyAscending(jobs[1..]);
      forall x | x in ActiveOnly(jobs[1..]) ensures jobs[0].id < x.id {
        var k :| 0 <= k < |jobs[1..]| && jobs[1..][k] == x;
        assert jobs[k + 1] == x;
      }
    }
  }

  /** When every listing is active the filter returns all of them, in order. */
  lemma {:induction false} ActiveOnlyAllActive(jobs: seq<JobListing>)
    requires forall i :: 0 <= i < |jobs| ==> jobs[i].isActive
    ensures ActiveOnly(jobs) == jobs
  {
    if jobs != [] {
      ActiveOnlyAllActive(jobs[1..]);
    }
  }

  // ---------------------------------------------------------------------------
  // Building records

  // The texts of the three sample listings.

  const EngineerDescription := "Lead innovative projects in plastic-to-thread conversion technology. Design sustainable manufacturing processes and optimize recycling efficiency."
  const EngineerRequirements := "Bachelor's degree in Engineering, experience with sustainable manufacturing, knowledge of recycling technologies"
  const EngineerSkills: seq<string> := ["Sustainability Engineering", "Process Design", "Recycling Technology", "Environmental Engineering", "Project Management", "CAD Software"]
  const ManagerDescription := "Oversee manufacturing operations, ensure quality control, and implement lean production methodologies for sustainable textile production."
  const ManagerRequirements := "Bachelor's degree in Operations Management, experience in manufacturing, knowledge of quality control systems"
  const ManagerSkills: seq<string> := ["Operations Management", "Quality Control", "Lean Manufacturing", "Team Leadership", "Supply Chain", "Process Optimization"]
  const OfficerDescription := "Ensure regulatory compliance, develop environmental policies, and maintain sustainability certifications across all operations."
  const OfficerRequirements := "Bachelor's degree in Environmental Science, knowledge of regulatory compliance, certification management experience"
  const OfficerSkills: seq<string> := ["Environmental Compliance", "Regulatory Knowledge", "Policy Development", "Certification Management", "Audit Management", "Risk Assessment"]

  /** A full-time sample listing in Nellore with the default form, active, before it gets its id. */
  function SampleJob(title: string, department: string, experience: string, description: string,
                     requirements: string, skills: seq<string>, now: Timestamp): JobListing
  {
    JobListing(0, title, department, "Nellore, India", "Full-time", experience, description,
      requirements, skills, DefaultFormUrl, true, now)
  }

  /** The three sample listings loaded at start-up; all three share the start-up time `now`. */
  function InitialJobs(now: Timestamp): (r: seq<JobListing>)
    ensures |r| == 3
    ensures forall i :: 0 <= i < |r| ==>
              r[i].isActive && r[i].googleFormUrl == DefaultFormUrl && r[i].createdAt == now
    ensures forall i :: 0 <= i < |r| ==> r[i].location == "Nellore, India" && r[i].jobType == "Full-time"
  {
    [
      SampleJob("Senior Sustainability Engineer", "Engineering", "5+ years",
        EngineerDescription, EngineerRequirements, EngineerSkills, now),
      SampleJob("Production Manager", "Operations", "7+ years",
        ManagerDescription, ManagerRequirements, ManagerSkills, now),
      SampleJob("Environmental Compliance Officer", "Compliance", "3+ years",
        OfficerDescription, OfficerRequirements, OfficerSkills, now)
    ]
  }

  /** The entries `forEach` stores for `jobs` when the counter starts at `first`. */
  function Seeded(jobs: seq<JobListing>, first: int): (r: seq<Entry<int, JobListing>>)
    ensures |r| == |jobs|
    ensures forall i :: 0 <= i < |r| ==> r[i].key == first + i && r[i].value.id == r[i].key
    ensures forall i :: 0 <= i < |r| ==> r[i].value.(id := jobs[i].id) == jobs[i]
  {
    seq(|jobs|, i requires 0 <= i < |jobs| => Entry(first + i, jobs[i].(id := first + i)))
  }

  /** Seeding the samples from id 1 stores them under ids 1, 2 and 3, all active. */
  lemma SeededSamples(now: Timestamp)
    ensures Keys(Seeded(InitialJobs(now), 1)) == [1, 2, 3]
    ensures ActiveOnly(Values(Seeded(InitialJobs(now), 1))) == Values(Seeded(InitialJobs(now), 1))
  {
    var m := Seeded(InitialJobs(now), 1);
    assert Keys(m) == [1, 2, 3];
    ActiveOnlyAllActive(Values(m));
  }

  /** The record `createJobListing` stores: the body, its defaults, the new id and the time. */
  function NewJobListing(job: InsertJobListing, id: int, now: Timestamp): (r: JobListing)
    ensures r.id == id && r.createdAt == now
    ensures r == Merge(DefaultListing(id, now), AsPartial(job))
  {
    JobListing(id, job.title, job.department, job.location, job.jobType, job.experience,
      job.description, job.requirements, job.skills.GetOr([]),
      job.googleFormUrl.GetOr(DefaultFormUrl), job.isActive.GetOr(true), now)
  }

  /**
   * The defaults `createJobListing` fills in are the column defaults of the job listings
   * table, and every field the body supplies is stored as supplied.
   */
  lemma NewJobListingFollowsTable(job: InsertJobListing, id: int, now: Timestamp)
    ensures var r := NewJobListing(job, id, now);
      && r.id == id && r.createdAt == now
      && r.title == job.title && r.department == job.department && r.location == job.location
      && r.jobType == job.jobType && r.experience == job.experience
      && r.description == job.description && r.requirements == job.requirements
      && (if job.skills.Some? then r.skills == job.skills.value
          else JobListingsTable[8] == Column("skills", TextArrayColumn, true, Fixed(StringsJson(r.skills))))
      && (if job.googleFormUrl.Some? then r.googleFormUrl == job.googleFormUrl.value
          else JobListingsTable[9] == Column("googleFormUrl", TextColumn, true, Fixed(JString(r.googleFormUrl))))
      && (if job.isActive.Some? then r.isActive == job.isActive.value
          else JobListingsTable[10] == Column("isActive", BooleanColumn, true, Fixed(JBool(r.isActive))))
  {
    assert StringsJson([]) == JArray([]);
  }

  /** `{ ...existingJob, ...updates }`: every field the update carries wins. */
  function Merge(existing: JobListing, updates: PartialJobListing): (r: JobListing)
    ensures r.id == existing.id && r.createdAt == existing.createdAt
  {
    existing.(
      title := updates.title.GetOr(existing.title),
      department := updates.department.GetOr(existing.department),
      location := updates.location.GetOr(existing.location),
      jobType := updates.jobType.GetOr(existing.jobType),
      experience := updates.experience.GetOr(existing.experience),
      description := updates.description.GetOr(existing.description),
      requirements := updates.requirements.GetOr(existing.requirements),
      skills := updates.skills.GetOr(existing.skills),
      googleFormUrl := updates.googleFormUrl.GetOr(existing.googleFormUrl),
      isActive := updates.isActive.GetOr(existing.isActive))
  }

  /**
   * The listing every column default gives, under `id` and `now`; the seven required text
   * columns have no default and are left empty.
   */
  function DefaultListing(id: int, now: Timestamp): JobListing {
    JobListing(id, "", "", "", "", "", "", "", [], DefaultFormUrl, true, now)
  }

  /** A validated job listing body as an update: the required fields are all present. */
  function AsPartial(job: InsertJobListing): PartialJobListing {
    PartialJobListing(Some(job.title), Some(job.department), Some(job.location), Some(job.jobType),
      Some(job.experience), Some(job.description), Some(job.requirements), job.skills,
      job.googleFormUrl, job.isActive)
  }

  const NoUpdates := PartialJobListing(None, None, None, None, None, None, None, None, None, None)

  /** Every field of a listing as an update. */
  function AsUpdate(j: JobListing): PartialJobListing {
    PartialJobListing(Some(j.title), Some(j.department), Some(j.location), Some(j.jobType),
      Some(j.experience), Some(j.description), Some(j.requirements), Some(j.skills),
      Some(j.googleFormUrl), Some(j.isActive))
  }

  /** Two updates applied in turn: the later one wins field by field. */
  function Then(first: PartialJobListing, second: PartialJobListing): PartialJobListing {
    PartialJobListing(
      if second.title.Some? then second.title else first.title,
      if second.department.Some? then second.department else first.department,
      if second.location.Some? then second.location else first.location,
      if second.jobType.Some? then second.jobType else first.jobType,
      if second.experience.Some? then second.experience else first.experience,
      if second.description.Some? then second.description else first.description,
      if second.requirements.Some? then second.requirements else first.requirements,
      if second.skills.Some? then second.skills else first.skills,
      if second.googleFormUrl.Some? then second.googleFormUrl else first.googleFormUrl,
      if second.isActive.Some? then second.isActive else first.isActive)
  }

  /** An empty update (`PUT` with `{}`) changes nothing. */
  lemma MergeNothing(existing: JobListing)
    ensures Merge(existing, NoUpdates) == existing
  {
  }

  /** Applying the same update twice is applying it once. */
  lemma MergeIdempotent(existing: JobListing, updates: PartialJobListing)
    ensures Merge(Merge(existing, updates), updates) == Merge(existing, updates)
  {
  }

  /** Two updates in turn are one update by their field-wise combination. */
  lemma MergeThen(existing: JobListing, first: PartialJobListing, second: PartialJobListing)
    ensures Merge(Merge(existing, first), second) == Merge(existing, Then(first, second))
  {
  }

  /** An update carrying every field replaces everything the server does not assign. */
  lemma MergeAll(existing: JobListing, j: JobListing)
    ensures Merge(existing, AsUpdate(j)) == j.(id := existing.id, createdAt := existing.createdAt)
  {
  }

  /** An update of one field changes that field and nothing else. */
  lemma MergeTitleOnly(existing: JobListing, title: string)
    ensures Merge(existing, NoUpdates.(title := Some(title))) == existing.(title := title)
  {
  }

  /** `submission.company ?? null`: a company left out is stored as null. */
  function StoredCompany(company: Option<Option<string>>): (r: Option<string>)
    ensures r.Some? <==> company.Some? && company.value.Some?
    ensures r.Some? ==> r.value == company.value.value
  {
    match company
    case None => None
    case Some(c) => c
  }

  /** The record `createContactSubmission` stores: the body, the new id and the time. */
  function NewContactSubmission(submission: InsertContactSubmission, id: int, now: Timestamp): (r: ContactSubmission)
    ensures r.id == id && r.createdAt == now
    ensures r.firstName == submission.firstName && r.lastName == submission.lastName
    ensures r.email == submission.email && r.message == submission.message
    ensures r.company == StoredCompany(submission.company)
    ensures r.company.Some? <==> submission.company.Some? && submission.company.value.Some?
  {
    ContactSubmission(id, submission.firstName, submission.lastName, submission.email,
      StoredCompany(submission.company), submission.message, now)
  }

  // ---------------------------------------------------------------------------
  // The store

  class MemStorage {
    var users: seq<Entry<int, User>>
    var jobListings: seq<Entry<int, JobListing>>
    var contactSubmissions: seq<Entry<int, ContactSubmission>>
    var currentUserId: int
    var currentJobId: int
    var currentContactId: int

    /**
     * Each map holds only ids its counter has issued, in ascending (insertion) order, and
     * every record carries the id it is stored under.
     */
    ghost predicate Valid()
      reads this
    {
      && UserTable(users, currentUserId)
      && JobTable(jobListings, currentJobId)
      && ContactTable(contactSubmissions, currentContactId)
    }

    /** No collection and no counter differs from the state before. */
    twostate predicate Unchanged()
      reads this
    {
      && users == old(users) && jobListings == old(jobListings)
      && contactSubmissions == old(contactSubmissions)
      && currentUserId == old(currentUserId) && currentJobId == old(currentJobId)
      && currentContactId == old(currentContactId)
    }

    constructor (now: Timestamp)
      ensures Valid()
      ensures Keys(jobListings) == [1, 2, 3]
      ensures jobListings == Seeded(InitialJobs(now), 1)
      ensures GetActiveJobListings() == GetAllJobListings()
      ensures users == [] && contactSubmissions == []
      ensures currentUserId == 1 && currentJobId == 4 && currentContactId == 1
    {
      users := [];
      jobListings := [];
      contactSubmissions := [];
      currentUserId := 1;
      currentJobId := 1;
      currentContactId := 1;
      new;
      InitializeJobListings(InitialJobs(now));
      SeededSamples(now);
    }

    /** Stores `initialJobs` under the next ids, in order, each carrying its id. */
    method InitializeJobListings(initialJobs: seq<JobListing>)
      requires Valid()
      modifies this
      ensures Valid()
      ensures jobListings == old(jobListings) + Seeded(initialJobs, old(currentJobId))
      ensures currentJobId == old(currentJobId) + |initialJobs|
      ensures users == old(users) && contactSubmissions == old(contactSubmissions)
      ensures currentUserId == old(currentUserId) && currentContactId == old(currentContactId)
    {
      ghost var stored, first := jobListings, currentJobId;
      var i := 0;
      while i < |initialJobs|
        invariant 0 <= i <= |initialJobs|
        invariant JobTable(jobListings, currentJobId)
        invariant currentJobId == first + i
        invariant jobListings == stored + Seeded(initialJobs[..i], first)
        invariant users == old(users) && contactSubmissions == old(contactSubmissions)
        invariant currentUserId == old(currentUserId) && currentContactId == old(currentContactId)
      {
        var job := initialJobs[i];
        var id := currentJobId;
        currentJobId := currentJobId + 1;
        JobTableNext(jobListings, id, job.(id := id));
        SeededStep(initialJobs, first, i);
        jobListings := Set(jobListings, id, job.(id := id));
        i := i + 1;
      }
      assert initialJobs[..i] == initialJobs;
    }

    /** `getUser(id)`: the user stored under `id`, if any. */
    function GetUser(id: int): (r: Option<User>)
      reads this
      requires Valid()
      ensures r.Some? <==> id in Keys(users)
      ensures r.Some? ==> r.value.id == id && Entry(id, r.value) in users
    {
      Get(users, id)
    }

    /** `getUserByUsername(username)`: the earliest-created user with that exact name. */
    function GetUserByUsername(username: string): (r: Option<User>)
      reads this
      requires Valid()
      ensures r.None? <==> forall e :: e in users ==> e.value.username != username
      ensures r.Some? ==> r.value.username == username && GetUser(r.value.id) == r
      ensures r.Some? ==> forall e :: e in users && e.value.username == username ==> r.value.id <= e.key
    {
      UsersListed();
      FindByUsername(Values(users), username)
    }

    lemma UsersListed()
      requires Valid()
      ensures forall i :: 0 <= i < |users| ==> Values(users)[i] == users[i].value
      ensures forall e :: e in users ==> exists i :: 0 <= i < |users| && users[i] == e
      ensures forall i :: 0 <= i < |users| ==> GetUser(users[i].key) == Some(users[i].value)
    {
      forall i | 0 <= i < |users| ensures GetUser(users[i].key) == Some(users[i].value) {
        GetEntry(users, i);
      }
    }

    /** `getAllJobListings()`: every listing, oldest first, each as `getJobListing` finds it. */
    function GetAllJobListings(): (r: seq<JobListing>)
      reads this
      requires Valid()
      ensures |r| == |jobListings|
      ensures forall i :: 0 <= i < |r| ==> GetJobListing(r[i].id) == Some(r[i])
      ensures forall i, j :: 0 <= i < j < |r| ==> r[i].id < r[j].id
    {
      JobListingsListed();
      Values(jobListings)
    }

    lemma JobListingsListed()
      requires Valid()
      ensures forall i :: 0 <= i < |jobListings| ==> GetJobListing(jobListings[i].key) == Some(jobListings[i].value)
    {
      forall i | 0 <= i < |jobListings|
        ensures GetJobListing(jobListings[i].key) == Some(jobListings[i].value)
      {
        GetEntry(jobListings, i);
      }
    }

    /**
     * `getActiveJobListings()`: exactly the active listings of `getAllJobListings()`; they
     * keep that order (ActiveOnlyAppend, ActiveJobListingsAscending).
     */
    function GetActiveJobListings(): (r: seq<JobListing>)
      reads this
      requires Valid()
      ensures forall j :: j in r <==> j in GetAllJobListings() && j.isActive
      ensures |r| <= |jobListings|
    {
      ActiveOnly(Values(jobListings))
    }

    /** The active listings come out in ascending id order, so none appears twice. */
    lemma ActiveJobListingsAscending()
      requires Valid()
      ensures forall i, j :: 0 <= i < j < |GetActiveJobListings()| ==>
        GetActiveJobListings()[i].id < GetActiveJobListings()[j].id
    {
      assert forall i :: 0 <= i < |jobListings| ==> Values(jobListings)[i].id == jobListings[i].key;
      ActiveOnlyAscending(Values(jobListings));
    }

    /** `getJobListing(id)`: the listing stored under `id`, if any. */
    function GetJobListing(id: int): (r: Option<JobListing>)
      reads this
      requires Valid()
      ensures r.Some? <==> id in Keys(jobListings)
      ensures r.Some? ==> r.value.id == id && Entry(id, r.value) in jobListings
    {
      Get(jobListings, id)
    }

    /** `getAllContactSubmissions()`: every submission, oldest first. */
    function GetAllContactSubmissions(): (r: seq<ContactSubmission>)
      reads this
      requires Valid()
      ensures |r| == |contactSubmissions|
      ensures forall i :: 0 <= i < |r| ==> Entry(r[i].id, r[i]) == contactSubmissions[i]
      ensures forall i, j :: 0 <= i < j < |r| ==> r[i].id < r[j].id
    {
      Values(contactSubmissions)
    }

    /** `createUser(insertUser)`: the next user id, no check that the name is new. */
    method CreateUser(insertUser: InsertUser) returns (user: User)
      requires Valid()
      modifies this
      ensures Valid()
      ensures user == User(old(currentUserId), insertUser.username, insertUser.password)
      ensures users == old(users) + [Entry(user.id, user)]
      ensures forall e :: e in old(users) ==> e.key < user.id
      ensures old(GetUserByUsername(insertUser.username)).Some? ==>
                GetUserByUsername(insertUser.username) == old(GetUserByUsername(insertUser.username))
      ensures currentUserId == old(currentUserId) + 1
      ensures jobListings == old(jobListings) && contactSubmissions == old(contactSubmissions)
      ensures currentJobId == old(currentJobId) && currentContactId == old(currentContactId)
    {
      var id := currentUserId;
      currentUserId := currentUserId + 1;
      user := User(id, insertUser.username, insertUser.password);
      UserTableNext(users, id, user);
      users := Set(users, id, user);
      assert Values(users) == Values(old(users)) + [user];
      FindByUsernameAppend(Values(old(users)), user, insertUser.username);
    }

    /** `createJobListing(job)`: the next job id, the defaults, and `now` as creation time. */
    method CreateJobListing(job: InsertJobListing, now: Timestamp) returns (created: JobListing)
      requires Valid()
      modifies this
      ensures Valid()
      ensures created == NewJobListing(job, old(currentJobId), now)
      ensures jobListings == old(jobListings) + [Entry(created.id, created)]
      ensures GetJobListing(created.id) == Some(created)
      ensures forall e :: e in old(jobListings) ==> e.key < created.id
      ensures currentJobId == old(currentJobId) + 1
      ensures users == old(users) && contactSubmissions == old(contactSubmissions)
      ensures currentUserId == old(currentUserId) && currentContactId == old(currentContactId)
    {
      var id := currentJobId;
      currentJobId := currentJobId + 1;
      created := NewJobListing(job, id, now);
      JobTableNext(jobListings, id, created);
      SetSpec(jobListings, id, created);
      jobListings := Set(jobListings, id, created);
    }

    /**
     * `updateJobListing(id, updates)`: an absent id changes nothing; otherwise the merged
     * listing replaces the old one where it stands.
     */
    method UpdateJobListing(id: int, updates: PartialJobListing) returns (r: Option<JobListing>)
      requires Valid()
      modifies this
      ensures Valid()
      ensures r.Some? <==> id in Keys(old(jobListings))
      ensures r.None? ==> jobListings == old(jobListings)
      ensures r.Some? ==> r.value == Merge(Get(old(jobListings), id).value, updates)
      ensures r.Some? ==> jobListings == old(jobListings)[Position(old(jobListings), id) := Entry(id, r.value)]
      ensures GetJobListing(id) == r
      ensures forall k :: k != id ==> Get(jobListings, k) == Get(old(jobListings), k)
      ensures Keys(jobListings) == Keys(old(jobListings))
      ensures users == old(users) && contactSubmissions == old(contactSubmissions)
      ensures currentUserId == old(currentUserId) && currentJobId == old(currentJobId)
      ensures currentContactId == old(currentContactId)
    {
      var existing := Get(jobListings, id);
      if existing.None? {
        return None;
      }
      var updated := Merge(existing.value, updates);
      JobTableReplace(jobListings, currentJobId, id, updated);
      SetSpec(jobListings, id, updated);
      jobListings := Set(jobListings, id, updated);
      r := Some(updated);
    }

    /** `deleteJobListing(id)`: whether a listing was removed; the counter is untouched. */
    method DeleteJobListing(id: int) returns (deleted: bool)
      requires Valid()
      modifies this
      ensures Valid()
      ensures deleted <==> id in Keys(old(jobListings))
      ensures jobListings == Delete(old(jobListings), id)
      ensures GetJobListing(id).None?
      ensures forall k :: k != id ==> Get(jobListings, k) == Get(old(jobListings), k)
      ensures deleted ==> |jobListings| == |old(jobListings)| - 1
      ensures deleted ==> id < currentJobId
      ensures users == old(users) && contactSubmissions == old(contactSubmissions)
      ensures currentUserId == old(currentUserId) && currentJobId == old(currentJobId)
      ensures currentContactId == old(currentContactId)
    {
      deleted := id in Keys(jobListings);
      IssuedKeysUnique(jobListings, currentJobId);
      DeleteSpec(jobListings, id);
      JobTableDelete(jobListings, currentJobId, id);
      jobListings := Delete(jobListings, id);
    }

    /** `createContactSubmission(submission)`: the next contact id, `company ?? null`, `now`. */
    method CreateContactSubmission(submission: InsertContactSubmission, now: Timestamp)
      returns (created: ContactSubmission)
      requires Valid()
      modifies this
      ensures Valid()
      ensures created == NewContactSubmission(submission, old(currentContactId), now)
      ensures contactSubmissions == old(contactSubmissions) + [Entry(created.id, created)]
      ensures forall e :: e in old(contactSubmissions) ==> e.key < created.id
      ensures currentContactId == old(currentContactId) + 1
      ensures users == old(users) && jobListings == old(jobListings)
      ensures currentUserId == old(currentUserId) && currentJobId == old(currentJobId)
    {
      var id := currentContactId;
      currentContactId := currentContactId + 1;
      created := NewContactSubmission(submission, id, now);
      ContactTableNext(contactSubmissions, id, created);
      contactSubmissions := Set(contactSubmissions, id, created);
    }
  }
}
