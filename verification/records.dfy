/** The records the store holds, the payloads that create them and the
    patches that update them. Field lists follow the pydantic schemas
    (the modules under app/schemas); a payload key the caller may omit is a `Field`. */
module Entities {
  import opened Seqs
  import opened Text

  /** One key of a payload dictionary: left out, or given with a value. */
  datatype Field<+T> = Absent | Given(value: T)

  /** `payload.get(key, default)`. */
  function GetOr<T>(f: Field<T>, default: T): T {
    match f
    case Absent => default
    case Given(v) => v
  }

  /** `payload.get(key)` for a key whose value may be null. */
  function Get<T>(f: Field<Option<T>>): Option<T> {
    match f
    case Absent => None
    case Given(v) => v
  }

  /** Python truthiness of an optional string: present and non-empty. */
  predicate Truthy(s: Option<string>) {
    s.Some? && s.value != ""
  }

  /** `a or b` on optional strings. */
  function Or(a: Option<string>, b: Option<string>): Option<string> {
    if Truthy(a) then a else b
  }

  // ---------------------------------------------------------------------
  // Records
  // ---------------------------------------------------------------------

  datatype Project = Project(
    id: string, name: string, description: string, ownerId: string,
    managerId: string, teamMembers: seq<string>, department: string,
    status: string, priority: string, createdAt: string,
    deadline: Option<string>, taskCount: int)

  datatype User = User(
    id: string, email: string, name: string, role: string,
    department: Option<string>, projects: seq<string>, isActive: bool)

  datatype Requirement = Requirement(
    id: string, reqIdString: string, projectId: string, status: string,
    title: string, description: string, trackingNumber: Option<string>,
    createdAt: string, updatedAt: string)

  datatype Task = Task(
    id: string, projectId: string, title: string, description: string,
    status: string, assignee: Option<string>, priority: string,
    createdAt: string, requirementId: Option<string>,
    parentTaskId: Option<string>)

  datatype Sprint = Sprint(
    id: string, projectId: string, name: string, goal: string,
    status: string, startDate: Option<string>, endDate: Option<string>,
    capacity: int, commitment: int, completed: int, createdAt: string)

  /** `kind` is the `type` key of the source record. */
  datatype BacklogItem = BacklogItem(
    id: string, projectId: string, title: string, description: string,
    storyPoints: int, priority: string, status: string,
    assignee: Option<string>, requirementId: Option<string>,
    sprintId: Option<string>, kind: string,
    acceptanceCriteria: seq<string>, createdAt: string)

  datatype Integration = Integration(
    id: string, name: string, description: string, category: string,
    status: string, isEnabled: bool, lastSync: Option<string>,
    features: seq<string>, config: map<string, string>,
    webhookUrl: Option<string>)

  /** `kind` is the `type` key of the source record. */
  datatype Notification = Notification(
    id: string, kind: string, category: string, title: string,
    message: string, timestamp: string, read: bool, actionable: bool,
    priority: string)

  datatype RiskSnapshot = RiskSnapshot(
    predictedCompletionDate: string, delayDays: int,
    overallRiskScore: real, completionProbability: real,
    totalTasks: int, completedTasks: int, highRiskTasks: int,
    teamUtilization: real)

  // ---------------------------------------------------------------------
  // Create payloads and the records they produce
  // ---------------------------------------------------------------------

  datatype RequirementPayload = RequirementPayload(
    title: string, reqIdString: Field<Option<string>>, status: Field<string>,
    description: Field<string>, trackingNumber: Field<Option<string>>,
    createdAt: Field<Option<string>>, updatedAt: Field<Option<string>>,
    timestamp: Field<Option<string>>, date: Field<Option<string>>)

  /** `f"REQ-{n:03d}"`. */
  function ReqCode(n: nat): (r: string)
    ensures StartsWith(r, "REQ-") && |r| >= 7
  {
    "REQ-" + ZeroPad3(Decimal(n))
  }

  /** Reads a requirement code back: `REQ-` followed by at least three digits. */
  function ParseReqCode(s: string): Option<nat> {
    if |s| >= 7 && s[..4] == "REQ-" && AllDigits(s[4..]) then Some(ParseDecimal(s[4..])) else None
  }

  /** Every generated code reads back as the number it was made from, so
      distinct counts give distinct codes. */
  lemma ReqCodeRoundTrip(n: nat)
    ensures ParseReqCode(ReqCode(n)) == Some(n)
  {
    var c := ReqCode(n);
    assert c[4..] == ZeroPad3(Decimal(n));
    DecimalRoundTrip(n);
  }

  lemma ReqCodeInjective(m: nat, n: nat)
    requires ReqCode(m) == ReqCode(n)
    ensures m == n
  {
    ReqCodeRoundTrip(m);
    ReqCodeRoundTrip(n);
  }

  /** The `createdAt` the store records: the payload's own value if it is not
      null, else the first truthy of `timestamp` and `date`, else a truthy
      `updatedAt`, else "2025-01-01". */
  function CreatedAtOf(p: RequirementPayload): string {
    match Get(p.createdAt)
    case Some(c) => c
    case None =>
      match Or(Get(p.timestamp), Or(Get(p.date), Get(p.createdAt)))
      case Some(c) => c
      case None => if Truthy(Get(p.updatedAt)) then Get(p.updatedAt).value else "2025-01-01"
  }

  /** The requirement `create_requirement` stores; `count` is the number of
      requirements already in the store (all projects), `newId` the fresh
      identifier. */
  function NewRequirement(count: nat, projectId: string, p: RequirementPayload, newId: string): (r: Requirement)
    ensures r.id == newId && r.projectId == projectId && r.title == p.title
    ensures r.reqIdString == if Truthy(Get(p.reqIdString)) then Get(p.reqIdString).value else ReqCode(count + 1)
    ensures r.status == GetOr(p.status, "defined")
    ensures r.updatedAt == if Get(p.updatedAt).Some? then Get(p.updatedAt).value else r.createdAt
    ensures r.createdAt == CreatedAtOf(p)
  {
    var created := CreatedAtOf(p);
    Requirement(
      id := newId,
      reqIdString := if Truthy(Get(p.reqIdString)) then Get(p.reqIdString).value else ReqCode(count + 1),
      projectId := projectId,
      status := GetOr(p.status, "defined"),
      title := p.title,
      description := GetOr(p.description, ""),
      trackingNumber := Get(p.trackingNumber),
      createdAt := created,
      updatedAt := match Get(p.updatedAt) case Some(u) => u case None => created)
  }

  /** The recorded `createdAt` is empty only when the payload itself gave an
      empty `createdAt`; every fallback yields non-empty text. */
  lemma CreatedAtEmptyIff(p: RequirementPayload)
    ensures CreatedAtOf(p) == "" <==> Get(p.createdAt) == Some("")
  {
  }

  /** Without a `createdAt` of its own, the first truthy of `timestamp`,
      `date` and `updatedAt` is taken, and the default date after them. */
  lemma CreatedAtFallback(p: RequirementPayload)
    requires Get(p.createdAt).None?
    ensures Truthy(Get(p.timestamp)) ==> CreatedAtOf(p) == Get(p.timestamp).value
    ensures !Truthy(Get(p.timestamp)) && Truthy(Get(p.date)) ==> CreatedAtOf(p) == Get(p.date).value
    ensures !Truthy(Get(p.timestamp)) && !Truthy(Get(p.date)) && Truthy(Get(p.updatedAt))
            ==> CreatedAtOf(p) == Get(p.updatedAt).value
    ensures !Truthy(Get(p.timestamp)) && !Truthy(Get(p.date)) && !Truthy(Get(p.updatedAt))
            ==> CreatedAtOf(p) == "2025-01-01"
    ensures CreatedAtOf(p) != ""
  {
  }

  /** Without any timestamp in the payload both stamps are the default date. */
  lemma DefaultTimestamps(count: nat, projectId: string, p: RequirementPayload, newId: string)
    requires Get(p.createdAt).None? && Get(p.updatedAt).None?
    requires !Truthy(Get(p.timestamp)) && !Truthy(Get(p.date))
    ensures NewRequirement(count, projectId, p, newId).createdAt == "2025-01-01"
    ensures NewRequirement(count, projectId, p, newId).updatedAt == "2025-01-01"
  {
  }

  datatype TaskPayload = TaskPayload(
    title: string, description: Field<string>, status: Field<string>,
    assignee: Field<Option<string>>, priority: Field<string>,
    createdAt: Field<string>, requirementId: Field<Option<string>>,
    parentTaskId: Field<Option<string>>)

  function NewTask(projectId: string, p: TaskPayload, newId: string): (r: Task)
    ensures r.id == newId && r.projectId == projectId && r.title == p.title
    ensures r.status == GetOr(p.status, "todo") && r.priority == GetOr(p.priority, "medium")
    ensures p.assignee.Absent? ==> r.assignee == Some("")
    ensures r.parentTaskId == Get(p.parentTaskId)
  {
    Task(
      id := newId, projectId := projectId, title := p.title,
      description := GetOr(p.description, ""), status := GetOr(p.status, "todo"),
      assignee := GetOr(p.assignee, Some("")), priority := GetOr(p.priority, "medium"),
      createdAt := GetOr(p.createdAt, "2025-01-01"),
      requirementId := Get(p.requirementId), parentTaskId := Get(p.parentTaskId))
  }

  datatype SprintPayload = SprintPayload(
    name: string, goal: Field<string>, status: Field<string>,
    startDate: Field<Option<string>>, endDate: Field<Option<string>>,
    capacity: Field<int>, commitment: Field<int>, completed: Field<int>,
    createdAt: Field<string>)

  function NewSprint(projectId: string, p: SprintPayload, newId: string): (r: Sprint)
    ensures r.id == newId && r.projectId == projectId && r.name == p.name
    ensures r.status == GetOr(p.status, "planning")
    ensures r.capacity == GetOr(p.capacity, 0) && r.completed == GetOr(p.completed, 0)
  {
    Sprint(
      id := newId, projectId := projectId, name := p.name,
      goal := GetOr(p.goal, ""), status := GetOr(p.status, "planning"),
      startDate := Get(p.startDate), endDate := Get(p.endDate),
      capacity := GetOr(p.capacity, 0), commitment := GetOr(p.commitment, 0),
      completed := GetOr(p.completed, 0), createdAt := GetOr(p.createdAt, "2025-01-01"))
  }

  datatype BacklogPayload = BacklogPayload(
    title: string, id: Field<Option<string>>, description: Field<string>,
    storyPoints: Field<int>, priority: Field<string>, status: Field<string>,
    assignee: Field<Option<string>>, requirementId: Field<Option<string>>,
    sprintId: Field<Option<string>>, kind: Field<string>,
    acceptanceCriteria: Field<seq<string>>, createdAt: Field<string>)

  /** `f"PB-{n}"`. */
  function BacklogCode(n: nat): (r: string)
    ensures StartsWith(r, "PB-")
  {
    "PB-" + Decimal(n)
  }

  function ParseBacklogCode(s: string): Option<nat> {
    if |s| >= 4 && s[..3] == "PB-" && AllDigits(s[3..]) then Some(ParseDecimal(s[3..])) else None
  }

  lemma BacklogCodeRoundTrip(n: nat)
    ensures ParseBacklogCode(BacklogCode(n)) == Some(n)
  {
    assert BacklogCode(n)[3..] == Decimal(n);
    DecimalRoundTrip(n);
  }

  /** The backlog item `create_backlog_item` stores; `count` is the number of
      backlog items already in the store (all projects). */
  function NewBacklogItem(count: nat, projectId: string, p: BacklogPayload): (r: BacklogItem)
    ensures r.id == if Truthy(Get(p.id)) then Get(p.id).value else BacklogCode(count + 200)
    ensures r.projectId == projectId && r.title == p.title
    ensures r.status == GetOr(p.status, "backlog") && r.kind == GetOr(p.kind, "task")
    ensures r.acceptanceCriteria == GetOr(p.acceptanceCriteria, [])
  {
    BacklogItem(
      id := if Truthy(Get(p.id)) then Get(p.id).value else BacklogCode(count + 200),
      projectId := projectId, title := p.title,
      description := GetOr(p.description, ""), storyPoints := GetOr(p.storyPoints, 0),
      priority := GetOr(p.priority, "medium"), status := GetOr(p.status, "backlog"),
      assignee := Get(p.assignee), requirementId := Get(p.requirementId),
      sprintId := Get(p.sprintId), kind := GetOr(p.kind, "task"),
      acceptanceCriteria := GetOr(p.acceptanceCriteria, []),
      createdAt := GetOr(p.createdAt, "2025-01-01"))
  }

  /** A generated backlog identifier reads back as count + 200. */
  lemma BacklogIdGenerated(count: nat, projectId: string, p: BacklogPayload)
    requires !Truthy(Get(p.id))
    ensures ParseBacklogCode(NewBacklogItem(count, projectId, p).id) == Some(count + 200)
  {
    BacklogCodeRoundTrip(count + 200);
  }

  // ---------------------------------------------------------------------
  // Patches: `record.update(payload)`
  // ---------------------------------------------------------------------

  /** After `record.update(payload)`, the field holds the payload's value
      when the key was given, and its old value when it was not. */
  predicate Overwrites<T(==)>(newValue: T, oldValue: T, f: Field<T>) {
    (f.Given? ==> newValue == f.value) && (f.Absent? ==> newValue == oldValue)
  }

  /** `Given` keys overwrite, `Absent` keys keep the old value. */
  function Patch<T>(old_: T, f: Field<T>): (r: T)
    ensures f.Absent? ==> r == old_
    ensures f.Given? ==> r == f.value
  {
    GetOr(f, old_)
  }

  datatype TaskPatch = TaskPatch(
    title: Field<string>, description: Field<string>, status: Field<string>,
    assignee: Field<Option<string>>, priority: Field<string>,
    requirementId: Field<Option<string>>, parentTaskId: Field<Option<string>>)

  /** `task.update(payload)`: every given key overwrites its field, every
      other field is kept. */
  function ApplyTaskPatch(t: Task, p: TaskPatch): (r: Task)
    ensures r.id == t.id && r.projectId == t.projectId && r.createdAt == t.createdAt
    ensures Overwrites(r.title, t.title, p.title)
    ensures Overwrites(r.description, t.description, p.description)
    ensures Overwrites(r.status, t.status, p.status)
    ensures Overwrites(r.assignee, t.assignee, p.assignee)
    ensures Overwrites(r.priority, t.priority, p.priority)
    ensures Overwrites(r.requirementId, t.requirementId, p.requirementId)
    ensures Overwrites(r.parentTaskId, t.parentTaskId, p.parentTaskId)
  {
    t.(title := Patch(t.title, p.title), description := Patch(t.description, p.description),
       status := Patch(t.status, p.status), assignee := Patch(t.assignee, p.assignee),
       priority := Patch(t.priority, p.priority),
       requirementId := Patch(t.requirementId, p.requirementId),
       parentTaskId := Patch(t.parentTaskId, p.parentTaskId))
  }

  /** `updatedAt` belongs to the requirement patch because
      `update_requirement` re-reads it from the payload. */
  datatype RequirementPatch = RequirementPatch(
    title: Field<string>, description: Field<string>, status: Field<string>,
    trackingNumber: Field<Option<string>>, updatedAt: Field<string>)

  /** `requirement.update(payload)` followed by the re-read of
      `updatedAt`: every given key overwrites its field, every other field is
      kept, and `updatedAt` ends as the payload's when given. */
  function ApplyRequirementPatch(q: Requirement, p: RequirementPatch): (r: Requirement)
    ensures r.id == q.id && r.reqIdString == q.reqIdString && r.projectId == q.projectId
    ensures r.createdAt == q.createdAt
    ensures Overwrites(r.title, q.title, p.title)
    ensures Overwrites(r.description, q.description, p.description)
    ensures Overwrites(r.status, q.status, p.status)
    ensures Overwrites(r.trackingNumber, q.trackingNumber, p.trackingNumber)
    ensures Overwrites(r.updatedAt, q.updatedAt, p.updatedAt)
  {
    var merged := q.(title := Patch(q.title, p.title), description := Patch(q.description, p.description),
                     status := Patch(q.status, p.status),
                     trackingNumber := Patch(q.trackingNumber, p.trackingNumber),
                     updatedAt := Patch(q.updatedAt, p.updatedAt));
    // `payload.get("updatedAt", requirement.get("updatedAt"))` after the merge
    merged.(updatedAt := GetOr(p.updatedAt, merged.updatedAt))
  }

  datatype IntegrationPatch = IntegrationPatch(
    status: Field<string>, isEnabled: Field<bool>,
    config: Field<map<string, string>>, webhookUrl: Field<Option<string>>)

  /** `integration.update(payload)`: every given key overwrites its field,
      every other field is kept. */
  function ApplyIntegrationPatch(g: Integration, p: IntegrationPatch): (r: Integration)
    ensures r.id == g.id && r.name == g.name && r.features == g.features
    ensures r.description == g.description && r.category == g.category && r.lastSync == g.lastSync
    ensures Overwrites(r.status, g.status, p.status)
    ensures Overwrites(r.isEnabled, g.isEnabled, p.isEnabled)
    ensures Overwrites(r.config, g.config, p.config)
    ensures Overwrites(r.webhookUrl, g.webhookUrl, p.webhookUrl)
  {
    g.(status := Patch(g.status, p.status), isEnabled := Patch(g.isEnabled, p.isEnabled),
       config := Patch(g.config, p.config), webhookUrl := Patch(g.webhookUrl, p.webhookUrl))
  }

  /** Applying the same patch twice is applying it once. */
  lemma PatchesIdempotent(t: Task, tp: TaskPatch, q: Requirement, rp: RequirementPatch,
                          g: Integration, ip: IntegrationPatch)
    ensures ApplyTaskPatch(ApplyTaskPatch(t, tp), tp) == ApplyTaskPatch(t, tp)
    ensures ApplyRequirementPatch(ApplyRequirementPatch(q, rp), rp) == ApplyRequirementPatch(q, rp)
    ensures ApplyIntegrationPatch(ApplyIntegrationPatch(g, ip), ip) == ApplyIntegrationPatch(g, ip)
  {
  }
}
