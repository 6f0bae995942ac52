/** The in-memory record store (app/utils/data_store.py): one object that
    owns every collection, appends on create, patches in place on update,
    cascades one level on task delete and filters by project on list.
    Reads hand out values, which is what the source's deep copies achieve. */
module Store {
  import opened Seqs
  import opened Text
  import opened Entities

  // ---------------------------------------------------------------------
  // The key/value dictionary behind the store, with its generic accessors
  // ---------------------------------------------------------------------

  /** What a key of the store's dictionary can hold. */
  datatype Value<R> = ListValue(items: seq<R>) | DictValue(entries: map<string, R>) | OtherValue

  /** The `TypeError` raised when a key holds the wrong kind of value. */
  datatype ShapeFault = NotAList(key: string) | NotADict(key: string)

  /** The raw dictionary `_data` with `get_collection`, `get_mapping` and
      the mutable accessors built on `setdefault`. */
  class RawStore<R> {
    var data: map<string, Value<R>>

    constructor (seed: map<string, Value<R>>)
      ensures data == seed
    {
      data := seed;
    }

    /** `self._data.get(key, [])`: a missing key reads as the empty list. */
    function GetCollection(key: string): (r: Value<R>)
      reads this
      ensures key !in data ==> r == ListValue([])
      ensures key in data ==> r == data[key]
    {
      if key in data then data[key] else ListValue([])
    }

    /** `self._data.get(key, {})`: a missing key reads as the empty mapping. */
    function GetMapping(key: string): (r: Value<R>)
      reads this
      ensures key !in data ==> r == DictValue(map[])
      ensures key in data ==> r == data[key]
    {
      if key in data then data[key] else DictValue(map[])
    }

    /** `_get_mutable_collection`: inserts an empty list for a missing key,
        and fails when the key holds something other than a list. */
    method GetMutableCollection(key: string) returns (r: Result<seq<R>, ShapeFault>)
      modifies this
      ensures key !in old(data) ==> data == old(data)[key := ListValue([])] && r == Ok([])
      ensures key in old(data) ==> data == old(data)
      ensures key in old(data) && old(data)[key].ListValue? ==> r == Ok(old(data)[key].items)
      ensures key in old(data) && !old(data)[key].ListValue? ==> r == Err(NotAList(key))
      ensures r.Ok? ==> GetCollection(key) == ListValue(r.value)
      ensures r.Err? ==> !GetCollection(key).ListValue?
    {
      if key !in data {
        data := data[key := ListValue([])];
      }
      var v := data[key];
      if v.ListValue? {
        r := Ok(v.items);
      } else {
        r := Err(NotAList(key));
      }
    }

    /** `_get_mutable_mapping`: the same for mapping-valued keys. */
    method GetMutableMapping(key: string) returns (r: Result<map<string, R>, ShapeFault>)
      modifies this
      ensures key !in old(data) ==> data == old(data)[key := DictValue(map[])] && r == Ok(map[])
      ensures key in old(data) ==> data == old(data)
      ensures key in old(data) && old(data)[key].DictValue? ==> r == Ok(old(data)[key].entries)
      ensures key in old(data) && !old(data)[key].DictValue? ==> r == Err(NotADict(key))
      ensures r.Ok? ==> GetMapping(key) == DictValue(r.value)
      ensures r.Err? ==> !GetMapping(key).DictValue?
    {
      if key !in data {
        data := data[key := DictValue(map[])];
      }
      var v := data[key];
      if v.DictValue? {
        r := Ok(v.entries);
      } else {
        r := Err(NotADict(key));
      }
    }
  }

  // ---------------------------------------------------------------------
  // Specification functions for the typed operations
  // ---------------------------------------------------------------------

  /** The contents the seed loader supplies, collection by collection. */
  datatype Seed = Seed(
    projects: seq<Project>, users: seq<User>, requirements: seq<Requirement>,
    tasks: seq<Task>, sprints: seq<Sprint>, backlogItems: seq<BacklogItem>,
    integrations: seq<Integration>,
    notifications: map<string, seq<Notification>>,
    risk: map<string, RiskSnapshot>)

  // ---------------------------------------------------------------------
  // Reads: lists by project and lookups by id
  // ---------------------------------------------------------------------

  /** `list_requirements`: the project's requirements, in store order. */
  function ProjectRequirements(requirements: seq<Requirement>, projectId: string): (r: seq<Requirement>)
    ensures IsSubsequence(r, requirements)
    ensures forall q :: multiset(r)[q] == if q.projectId == projectId then multiset(requirements)[q] else 0
  {
    Filter(requirements, (q: Requirement) => q.projectId == projectId)
  }

  /** `list_tasks`. */
  function ProjectTasks(tasks: seq<Task>, projectId: string): (r: seq<Task>)
    ensures IsSubsequence(r, tasks)
    ensures forall t :: multiset(r)[t] == if t.projectId == projectId then multiset(tasks)[t] else 0
  {
    Filter(tasks, (t: Task) => t.projectId == projectId)
  }

  /** `list_sprints`. */
  function ProjectSprints(sprints: seq<Sprint>, projectId: string): (r: seq<Sprint>)
    ensures IsSubsequence(r, sprints)
    ensures forall s :: multiset(r)[s] == if s.projectId == projectId then multiset(sprints)[s] else 0
  {
    Filter(sprints, (s: Sprint) => s.projectId == projectId)
  }

  /** `list_backlog_items`. */
  function ProjectBacklogItems(items: seq<BacklogItem>, projectId: string): (r: seq<BacklogItem>)
    ensures IsSubsequence(r, items)
    ensures forall b :: multiset(r)[b] == if b.projectId == projectId then multiset(items)[b] else 0
  {
    Filter(items, (b: BacklogItem) => b.projectId == projectId)
  }

  /** The project `get_project` returns: the first one with the id. */
  function ProjectById(projects: seq<Project>, projectId: string): (r: Option<Project>)
    ensures r.Some? ==> r.value.id == projectId
    ensures r.Some? ==> exists k :: 0 <= k < |projects| && projects[k] == r.value &&
                          forall j :: 0 <= j < k ==> projects[j].id != projectId
    ensures r.None? <==> forall p :: p in projects ==> p.id != projectId
  {
    match FirstWhere(projects, (p: Project) => p.id == projectId)
    case None => None
    case Some(k) => Some(projects[k])
  }

  /** `get_risk_snapshot`: the project's entry of the risk mapping, if any. */
  function RiskFor(risk: map<string, RiskSnapshot>, projectId: string): (r: Option<RiskSnapshot>)
    ensures r.Some? <==> projectId in risk
    ensures r.Some? ==> r.value == risk[projectId]
  {
    if projectId in risk then Some(risk[projectId]) else None
  }

  /** The failures the endpoints report as HTTP status codes. */
  datatype HttpError = NotFound | Forbidden

  /** A task survives `delete_task(taskId)` unless it is that task or one of
      its direct children. */
  predicate SurvivesDelete(t: Task, taskId: string) {
    t.id != taskId && t.parentTaskId != Some(taskId)
  }

  /** The task list `delete_task` writes back. */
  function AfterDelete(tasks: seq<Task>, taskId: string): seq<Task> {
    Filter(tasks, t => SurvivesDelete(t, taskId))
  }

  /** Something is removed exactly when the id names a task or the parent
      of a task. */
  lemma DeleteRemovesIff(tasks: seq<Task>, taskId: string)
    ensures |AfterDelete(tasks, taskId)| < |tasks| <==>
            exists t :: t in tasks && (t.id == taskId || t.parentTaskId == Some(taskId))
  {
    FilterShrinksIff(tasks, t => SurvivesDelete(t, taskId));
  }

  /** A second delete with the same id finds nothing to remove. */
  lemma DeleteTwiceRemovesNothing(tasks: seq<Task>, taskId: string)
    ensures AfterDelete(AfterDelete(tasks, taskId), taskId) == AfterDelete(tasks, taskId)
  {
    FilterIdempotent(tasks, t => SurvivesDelete(t, taskId));
  }

  /** The cascade is one level deep: a child of the deleted task goes, a
      grandchild stays. */
  lemma DeleteCascadesOneLevel(tasks: seq<Task>, taskId: string, child: Task, grandchild: Task)
    requires child in tasks && grandchild in tasks
    requires child.parentTaskId == Some(taskId) && child.id != taskId
    requires grandchild.parentTaskId == Some(child.id) && grandchild.id != taskId
    ensures child !in AfterDelete(tasks, taskId)
    ensures grandchild in AfterDelete(tasks, taskId)
  {
  }

  /** Position `j` holds the first entry of `entries` with the id. */
  predicate FirstWithId(entries: seq<Notification>, j: int, notificationId: string)
    requires 0 <= j < |entries|
  {
    entries[j].id == notificationId && forall k :: 0 <= k < j ==> entries[k].id != notificationId
  }

  /** `mark_notification_read` on one project's list: the first entry with
      the id gets `read = true`, and every other entry stays as it was. */
  function MarkRead(entries: seq<Notification>, notificationId: string): (r: seq<Notification>)
    ensures |r| == |entries|
    ensures forall j :: 0 <= j < |r| && FirstWithId(entries, j, notificationId) ==>
              r[j] == entries[j].(read := true)
    ensures forall j :: 0 <= j < |r| && !FirstWithId(entries, j, notificationId) ==>
              r[j] == entries[j]
  {
    match FirstWhere(entries, (n: Notification) => n.id == notificationId)
    case None => entries
    case Some(i) => entries[i := entries[i].(read := true)]
  }

  lemma MarkReadIdempotent(entries: seq<Notification>, notificationId: string)
    ensures MarkRead(MarkRead(entries, notificationId), notificationId) == MarkRead(entries, notificationId)
  {
    var once := MarkRead(entries, notificationId);
    var p := (n: Notification) => n.id == notificationId;
    match FirstWhere(entries, p)
    case None =>
    case Some(i) =>
      assert FirstWhere(once, p) == Some(i) by {
        assert forall j :: 0 <= j < |once| ==> p(once[j]) == p(entries[j]);
      }
      assert once[i := once[i].(read := true)] == once;
  }

  // ---------------------------------------------------------------------
  // The store object
  // ---------------------------------------------------------------------

  class DataStore {
    var projects: seq<Project>
    var users: seq<User>
    var requirements: seq<Requirement>
    var tasks: seq<Task>
    var sprints: seq<Sprint>
    var backlogItems: seq<BacklogItem>
    var integrations: seq<Integration>
    var notifications: map<string, seq<Notification>>
    var risk: map<string, RiskSnapshot>

    /** The whole state as one value. */
    function Contents(): Seed
      reads this
    {
      Seed(projects, users, requirements, tasks, sprints, backlogItems,
           integrations, notifications, risk)
    }

    constructor (seed: Seed)
      ensures Contents() == seed
    {
      projects, users, requirements := seed.projects, seed.users, seed.requirements;
      tasks, sprints, backlogItems := seed.tasks, seed.sprints, seed.backlogItems;
      integrations, notifications, risk := seed.integrations, seed.notifications, seed.risk;
    }

    /** `reset()`: every earlier change is discarded. */
    method Reset(seed: Seed)
      modifies this
      ensures Contents() == seed
    {
      projects, users, requirements := seed.projects, seed.users, seed.requirements;
      tasks, sprints, backlogItems := seed.tasks, seed.sprints, seed.backlogItems;
      integrations, notifications, risk := seed.integrations, seed.notifications, seed.risk;
    }

    // Users ------------------------------------------------------------

    /** The first user whose e-mail equals `email` up to letter case. */
    method GetUserByEmail(email: string) returns (r: Option<User>)
      ensures r.Some? ==> r.value in users && Lower(r.value.email) == Lower(email)
      ensures r.None? <==> forall u :: u in users ==> Lower(u.email) != Lower(email)
      ensures r.Some? ==> forall j :: 0 <= j < |users| && users[j] != r.value ==>
                            Lower(users[j].email) == Lower(email) ==>
                            exists k :: 0 <= k < j && users[k] == r.value
    {
      var i := FindFirst(users, (u: User) => Lower(u.email) == Lower(email));
      match i
      case None => r := None;
      case Some(k) => r := Some(users[k]);
    }

    /** `get_user`: the first user with the id. */
    method GetUser(userId: string) returns (r: Option<User>)
      ensures r.Some? ==> r.value.id == userId && r.value in users
      ensures r.None? <==> forall u :: u in users ==> u.id != userId
      ensures r.Some? ==> exists k :: 0 <= k < |users| && users[k] == r.value &&
                            forall j :: 0 <= j < k ==> users[j].id != userId
    {
      var i := FindFirst(users, (u: User) => u.id == userId);
      match i
      case None => r := None;
      case Some(k) => r := Some(users[k]);
    }

    /** `get_project`: the scan that stops at the first project with the id. */
    method GetProject(projectId: string) returns (r: Option<Project>)
      ensures r == ProjectById(projects, projectId)
    {
      var i := FindFirst(projects, (p: Project) => p.id == projectId);
      match i
      case None => r := None;
      case Some(k) => r := Some(projects[k]);
    }

    // Lists by project ---------------------------------------------------

    function ListRequirements(projectId: string): seq<Requirement>
      reads this
    {
      ProjectRequirements(requirements, projectId)
    }

    function ListTasks(projectId: string): seq<Task>
      reads this
    {
      ProjectTasks(tasks, projectId)
    }

    function ListSprints(projectId: string): seq<Sprint>
      reads this
    {
      ProjectSprints(sprints, projectId)
    }

    function ListBacklogItems(projectId: string): seq<BacklogItem>
      reads this
    {
      ProjectBacklogItems(backlogItems, projectId)
    }

    /** `get_mapping("notifications").get(project_id, [])`. */
    function ListNotifications(projectId: string): (r: seq<Notification>)
      reads this
      ensures projectId !in notifications ==> r == []
      ensures projectId in notifications ==> r == notifications[projectId]
    {
      if projectId in notifications then notifications[projectId] else []
    }

    /** `get_mapping("risk").get(project_id)`. */
    function GetRiskSnapshot(projectId: string): Option<RiskSnapshot>
      reads this
    {
      RiskFor(risk, projectId)
    }

    // Requirements -------------------------------------------------------

    method CreateRequirement(projectId: string, payload: RequirementPayload, newId: string)
      returns (r: Requirement)
      modifies this`requirements
      ensures requirements == old(requirements) + [r]
      ensures r == NewRequirement(|old(requirements)|, projectId, payload, newId)
    {
      r := NewRequirement(|requirements|, projectId, payload, newId);
      requirements := requirements + [r];
    }

    method UpdateRequirement(requirementId: string, patch: RequirementPatch)
      returns (r: Option<Requirement>)
      modifies this`requirements
      ensures match FirstWhere(old(requirements), (q: Requirement) => q.id == requirementId)
              case None => r.None? && requirements == old(requirements)
              case Some(i) => r == Some(ApplyRequirementPatch(old(requirements)[i], patch))
                              && requirements == old(requirements)[i := r.value]
    {
      var found := FindFirst(requirements, (q: Requirement) => q.id == requirementId);
      match found
      case None => r := None;
      case Some(i) =>
        var updated := ApplyRequirementPatch(requirements[i], patch);
        requirements := requirements[i := updated];
        r := Some(updated);
    }

    // Tasks --------------------------------------------------------------

    method CreateTask(projectId: string, payload: TaskPayload, newId: string) returns (r: Task)
      modifies this`tasks
      ensures tasks == old(tasks) + [r]
      ensures r == NewTask(projectId, payload, newId)
    {
      r := NewTask(projectId, payload, newId);
      tasks := tasks + [r];
    }

    method UpdateTask(taskId: string, patch: TaskPatch) returns (r: Option<Task>)
      modifies this`tasks
      ensures match FirstWhere(old(tasks), (t: Task) => t.id == taskId)
              case None => r.None? && tasks == old(tasks)
              case Some(i) => r == Some(ApplyTaskPatch(old(tasks)[i], patch))
                              && tasks == old(tasks)[i := r.value]
    {
      var found := FindFirst(tasks, (t: Task) => t.id == taskId);
      match found
      case None => r := None;
      case Some(i) =>
        var updated := ApplyTaskPatch(tasks[i], patch);
        tasks := tasks[i := updated];
        r := Some(updated);
    }

    /** Removes the task and its direct children; reports whether the list
        got shorter. */
    method DeleteTask(taskId: string) returns (removed: bool)
      modifies this`tasks
      ensures tasks == AfterDelete(old(tasks), taskId)
      ensures removed <==> |tasks| != |old(tasks)|
    {
      var originalLength := |tasks|;
      tasks := AfterDelete(tasks, taskId);
      removed := |tasks| != originalLength;
    }

    // Sprints and backlog ----------------------------------------------

    method CreateSprint(projectId: string, payload: SprintPayload, newId: string) returns (r: Sprint)
      modifies this`sprints
      ensures sprints == old(sprints) + [r]
      ensures r == NewSprint(projectId, payload, newId)
    {
      r := NewSprint(projectId, payload, newId);
      sprints := sprints + [r];
    }

    method CreateBacklogItem(projectId: string, payload: BacklogPayload) returns (r: BacklogItem)
      modifies this`backlogItems
      ensures backlogItems == old(backlogItems) + [r]
      ensures r == NewBacklogItem(|old(backlogItems)|, projectId, payload)
    {
      r := NewBacklogItem(|backlogItems|, projectId, payload);
      backlogItems := backlogItems + [r];
    }

    // Notifications ------------------------------------------------------

    method MarkNotificationRead(projectId: string, notificationId: string)
      returns (r: Option<Notification>)
      modifies this`notifications
      ensures projectId !in old(notifications) ==> r.None? && notifications == old(notifications)
      ensures projectId in old(notifications) ==>
                match FirstWhere(old(notifications)[projectId], (n: Notification) => n.id == notificationId)
                case None => r.None? && notifications == old(notifications)
                case Some(i) => r == Some(old(notifications)[projectId][i].(read := true))
                                && notifications == old(notifications)[projectId := MarkRead(old(notifications)[projectId], notificationId)]
      ensures ListNotifications(projectId) == MarkRead(old(ListNotifications(projectId)), notificationId)
      ensures forall other :: other != projectId ==> ListNotifications(other) == old(ListNotifications(other))
      ensures r.Some? <==> exists n :: n in old(ListNotifications(projectId)) && n.id == notificationId
      ensures r.Some? ==> r.value.id == notificationId && r.value.read && r.value in ListNotifications(projectId)
    {
      if projectId !in notifications {
        return None;
      }
      var entries := notifications[projectId];
      var found := FindFirst(entries, (n: Notification) => n.id == notificationId);
      match found
      case None => r := None;
      case Some(i) =>
        var entry := entries[i].(read := true);
        notifications := notifications[projectId := entries[i := entry]];
        r := Some(entry);
    }

    // Integrations -------------------------------------------------------

    method UpdateIntegration(integrationId: string, patch: IntegrationPatch)
      returns (r: Option<Integration>)
      modifies this`integrations
      ensures match FirstWhere(old(integrations), (g: Integration) => g.id == integrationId)
              case None => r.None? && integrations == old(integrations)
              case Some(i) => r == Some(ApplyIntegrationPatch(old(integrations)[i], patch))
                              && integrations == old(integrations)[i := r.value]
    {
      var found := FindFirst(integrations, (g: Integration) => g.id == integrationId);
      match found
      case None => r := None;
      case Some(i) =>
        var updated := ApplyIntegrationPatch(integrations[i], patch);
        integrations := integrations[i := updated];
        r := Some(updated);
    }
  }
}
