/** The decision logic of the task routes (backend/routes/taskRoutes.js):
    which requester may create, update or delete a task, the order in which
    the checks run, the task that results, the activity records produced and
    the room events emitted. Database reads are passed in; the writes are
    the returned task and activities. */
module TaskRoutes {
  import opened Js
  import opened ProjectAccess

  /** A stored task. `assignedTo` and `createdBy` are raw user ids. */
  datatype Task = Task(id: string, text: WireValue, status: string, project: string,
                       assignedTo: Option<string>, createdBy: Option<string>)

  datatype Action =
    | Created(toStatus: string, toAssignee: Option<string>)
    | StatusChanged(fromStatus: string, toStatus: string)
    | AssigneeChanged(fromAssignee: Option<string>, toAssignee: Option<string>)
    | Deleted

  /** A TaskActivity record. */
  datatype Activity = Activity(project: string, task: string, user: string, action: Action)

  /** The events the routes emit to a project room. */
  datatype TaskEvent =
    | TaskCreated(task: Task)
    | TaskUpdated(task: Task)
    | TaskDeleted(id: string)
    | ActivityCreated(activity: Activity)

  /** `io.to(room).emit(event)`. */
  datatype Emit = Emit(room: string, event: TaskEvent)

  /** The authenticated requester and the `role` of its user record (`None`
      when the record is missing). */
  datatype Requester = Requester(id: string, role: Option<string>)

  datatype RouteError =
    | TaskNotFound
    | NotAuthorized
    | AssigneeNotMember
    | OnlyManagerAssignsOthers
    | OnlyOwnerReassigns
    | OnlyCreatorEdits
    | OnlyAssigneeUpdatesStatus
    | OnlyCreatorDeletes

  const DefaultStatus: string := "To-Do"
  const ActivityLimit: nat := 50

  /** The HTTP status each refusal is answered with. */
  function StatusCode(e: RouteError): (code: nat)
    ensures code in {400, 403, 404}
    ensures code == 404 <==> e == TaskNotFound
    ensures code == 400 <==> e == AssigneeNotMember
  {
    match e
    case TaskNotFound => 404
    case AssigneeNotMember => 400
    case _ => 403
  }

  /** `String(project.owner) === String(req.userId)`, on the unpopulated
      project `findById` returns. */
  predicate IsOwnerOf(p: Project, uid: string)
  {
    IdToJsString(p.owner) == uid
  }

  /** `canManage`: the project owner or a user whose global role is "admin". */
  predicate CanManage(p: Project, req: Requester)
  {
    IsOwnerOf(p, req.id) || req.role == Some("admin")
  }

  /** `typeof v === "string" && v.trim() ? v.trim() : null`. */
  function NormalizeAssignee(v: WireValue): (r: Option<string>)
    ensures r.Some? <==> v.Str? && !IsBlank(v.s)
    ensures r.Some? ==> r.value == Trim(v.s) && r.value != ""
  {
    if v.Str? && Trim(v.s) != "" then Some(Trim(v.s)) else None
  }

  /** The requested assignee is given but is not a user of the project. */
  predicate AssigneeRejected(p: Option<Project>, assignedTo: WireValue)
  {
    var a := NormalizeAssignee(assignedTo);
    a.Some? && !IsProjectUser(p, a.value)
  }

  datatype Outcome = Outcome(task: Task, emits: seq<Emit>)

  /** POST /:projectId. `fetched` is `Project.findById(projectId)` and
      `newId` the id the database gives the new task. */
  function CreateTask(projectId: string, fetched: Option<Project>, req: Requester,
                      text: WireValue, assignedTo: WireValue, newId: string): (r: Result<Outcome, RouteError>)
    ensures r == Err(NotAuthorized) <==> !IsMember(fetched, req.id)
    ensures r == Err(AssigneeNotMember) <==>
      IsMember(fetched, req.id) && AssigneeRejected(fetched, assignedTo)
    ensures var a := NormalizeAssignee(assignedTo);
      r == Err(OnlyManagerAssignsOthers) <==>
        (IsMember(fetched, req.id) && !AssigneeRejected(fetched, assignedTo)
         && a.Some? && !CanManage(fetched.value, req) && a.value != req.id)
    ensures r.Err? ==> r.error in {NotAuthorized, AssigneeNotMember, OnlyManagerAssignsOthers}
    ensures r.Ok? ==>
      var t := r.value.task;
      && t.id == newId && t.text == text && t.project == projectId
      && t.status == DefaultStatus
      && t.createdBy == Some(req.id)
      && t.assignedTo == NormalizeAssignee(assignedTo)
      && r.value.emits == [Emit(projectId, TaskCreated(t)),
                           Emit(projectId, ActivityCreated(Activity(projectId, newId, req.id,
                                                                    Created(DefaultStatus, t.assignedTo))))]
  {
    var project := LoadProjectIfMember(fetched, req.id);
    if project.None? then Err(NotAuthorized)
    else
      var a := NormalizeAssignee(assignedTo);
      if a.Some? && !IsProjectUser(project, a.value) then Err(AssigneeNotMember)
      else if a.Some? && !CanManage(project.value, req) && a.value != req.id then Err(OnlyManagerAssignsOthers)
      else
        var task := Task(newId, text, DefaultStatus, projectId, a, Some(req.id));
        var activity := Activity(projectId, newId, req.id, Created(task.status, task.assignedTo));
        Ok(Outcome(task, [Emit(projectId, TaskCreated(task)), Emit(projectId, ActivityCreated(activity))]))
  }

  /** What a successful create guarantees about who may be assigned: a
      project user, and only the requester unless the requester manages. */
  lemma CreateAssignsOnlyAllowed(projectId: string, fetched: Option<Project>, req: Requester,
                                 text: WireValue, assignedTo: WireValue, newId: string)
    requires CreateTask(projectId, fetched, req, text, assignedTo, newId).Ok?
    ensures var t := CreateTask(projectId, fetched, req, text, assignedTo, newId).value.task;
      && IsMember(fetched, req.id)
      && (t.assignedTo.Some? ==> IsMember(fetched, t.assignedTo.value))
      && (t.assignedTo.Some? && !CanManage(fetched.value, req) ==> t.assignedTo == Some(req.id))
  {
    var a := NormalizeAssignee(assignedTo);
    if a.Some? {
      ProjectUserIsMember(fetched, a.value);
    }
  }

  /** The body fields of PUT /:id. */
  datatype UpdateBody = UpdateBody(status: WireValue, text: WireValue, assignedTo: WireValue)

  /** The `updates` object: `None` for a key that is absent, and for
      `assignedTo`, `Some(None)` for an explicit null. */
  datatype Updates = Updates(status: Option<string>, text: Option<string>, assignedTo: Option<Option<string>>)

  /** `updates.assignedTo !== undefined`: the body reassigns the task. */
  predicate Reassigns(body: UpdateBody)
  {
    body.assignedTo.Null? || NormalizeAssignee(body.assignedTo).Some?
  }

  /** `isEditingDetails`. */
  predicate EditsDetails(body: UpdateBody)
  {
    body.text.Str? || Reassigns(body)
  }

  predicate IsCreator(t: Task, uid: string)
  {
    t.createdBy == Some(uid)
  }

  predicate IsAssignee(t: Task, uid: string)
  {
    t.assignedTo == Some(uid)
  }

  /** Fills `updates` field by field: only string `status` and `text` are
      taken, `assignedTo` becomes null on an explicit null and the trimmed id
      on a non-blank string; anything else leaves the key out. */
  method CollectUpdates(body: UpdateBody) returns (u: Updates)
    ensures u.status.Some? <==> body.status.Str?
    ensures u.status.Some? ==> u.status.value == body.status.s
    ensures u.text.Some? <==> body.text.Str?
    ensures u.text.Some? ==> u.text.value == body.text.s
    ensures u.assignedTo.Some? <==> Reassigns(body)
    ensures u.assignedTo == Some(None) <==> body.assignedTo.Null?
    ensures u.assignedTo.Some? && u.assignedTo.value.Some? ==> u.assignedTo.value == NormalizeAssignee(body.assignedTo)
  {
    u := Updates(None, None, None);
    if body.status.Str? {
      u := u.(status := Some(body.status.s));
    }
    if body.text.Str? {
      u := u.(text := Some(body.text.s));
    }
    if body.assignedTo.Null? {
      u := u.(assignedTo := Some(None));
    }
    if body.assignedTo.Str? && Trim(body.assignedTo.s) != "" {
      u := u.(assignedTo := Some(Some(Trim(body.assignedTo.s))));
    }
  }

  /** The assignee after `$set` of the `assignedTo` key, if present. */
  function AssigneeAfter(t: Task, assignee: Option<Option<string>>): Option<string>
  {
    if assignee.Some? then assignee.value else t.assignedTo
  }

  /** The activity log an update writes, stated as what it must contain:
      one `status_changed` record when the status really changes, one
      `assignee_changed` record when `assignedTo` was supplied and differs,
      status first, each for this task and requester. */
  predicate IsUpdateLog(events: seq<Activity>, t: Task, status: Option<string>,
                        assignee: Option<Option<string>>, uid: string)
  {
    var statusChanged := status.Some? && status.value != t.status;
    var assigneeChanged := assignee.Some? && AssigneeAfter(t, assignee) != t.assignedTo;
    && |events| == (if statusChanged then 1 else 0) + (if assigneeChanged then 1 else 0)
    && (forall k :: 0 <= k < |events| ==>
          events[k].project == t.project && events[k].task == t.id && events[k].user == uid)
    && (statusChanged ==> events[0].action == StatusChanged(t.status, status.value))
    && (assigneeChanged ==> events[|events| - 1].action == AssigneeChanged(t.assignedTo, AssigneeAfter(t, assignee)))
  }

  /** An update log has at most two records and is determined by the update. */
  lemma UpdateLogUnique(a: seq<Activity>, b: seq<Activity>, t: Task, status: Option<string>,
                        assignee: Option<Option<string>>, uid: string)
    requires IsUpdateLog(a, t, status, assignee, uid) && IsUpdateLog(b, t, status, assignee, uid)
    ensures |a| <= 2 && a == b
  {
    if |a| == 2 {
      assert a[0] == b[0] && a[1] == b[1];
    } else if |a| == 1 {
      assert a[0] == b[0];
    }
  }

  /** Builds `activityEvents` with `push`. */
  method ActivityEvents(t: Task, u: Updates, uid: string) returns (events: seq<Activity>)
    ensures IsUpdateLog(events, t, u.status, u.assignedTo, uid)
  {
    events := [];
    if u.status.Some? && u.status.value != t.status {
      events := events + [Activity(t.project, t.id, uid, StatusChanged(t.status, u.status.value))];
    }
    var before := t.assignedTo;
    var after := if u.assignedTo.None? then before else u.assignedTo.value;
    if u.assignedTo.Some? && before != after {
      events := events + [Activity(t.project, t.id, uid, AssigneeChanged(before, after))];
    }
  }

  function ActivityEmits(room: string, acts: seq<Activity>): (r: seq<Emit>)
    ensures |r| == |acts|
    ensures forall k :: 0 <= k < |acts| ==> r[k] == Emit(room, ActivityCreated(acts[k]))
  {
    seq(|acts|, k requires 0 <= k < |acts| => Emit(room, ActivityCreated(acts[k])))
  }

  datatype Updated = Updated(task: Task, activities: seq<Activity>, emits: seq<Emit>)

  /** The checks of PUT /:id that come after the membership check, in
      source order, as the error of the first that fails. */
  function UpdatePermission(t: Task, p: Project, req: Requester, body: UpdateBody): Option<RouteError>
  {
    if AssigneeRejected(Some(p), body.assignedTo) then Some(AssigneeNotMember)
    else if Reassigns(body) && !CanManage(p, req) then Some(OnlyOwnerReassigns)
    else if EditsDetails(body) && !IsCreator(t, req.id) then Some(OnlyCreatorEdits)
    else if !CanManage(p, req) && t.assignedTo.Some? && !IsAssignee(t, req.id) then Some(OnlyAssigneeUpdatesStatus)
    else None
  }

  /** What a successful PUT /:id produces from task `t`: only the validly
      typed fields of the body change the task, the activity log is the
      update log, and `task:updated` is emitted before the activity events. */
  predicate IsUpdateResult(t: Task, req: Requester, body: UpdateBody, u: Updated)
  {
    var n := u.task;
    && n.id == t.id && n.project == t.project && n.createdBy == t.createdBy
    && n.status == (if body.status.Str? then body.status.s else t.status)
    && n.text == (if body.text.Str? then body.text else t.text)
    && n.assignedTo == (if body.assignedTo.Null? then None
                        else if NormalizeAssignee(body.assignedTo).Some? then NormalizeAssignee(body.assignedTo)
                        else t.assignedTo)
    && IsUpdateLog(u.activities, t,
                   if body.status.Str? then Some(body.status.s) else None,
                   if Reassigns(body) then Some(n.assignedTo) else None, req.id)
    && u.emits == [Emit(t.project, TaskUpdated(n))] + ActivityEmits(t.project, u.activities)
  }

  /** The part of PUT /:id after the membership check, on the member's
      project `p`. */
  method UpdateAsMember(t: Task, p: Project, req: Requester, body: UpdateBody)
    returns (r: Result<Updated, RouteError>)
    ensures var verdict := UpdatePermission(t, p, req, body);
      (verdict.Some? ==> r == Err(verdict.value)) && (verdict.None? <==> r.Ok?)
    ensures r.Ok? ==> IsUpdateResult(t, req, body, r.value)
  {
    var canManage := CanManage(p, req);
    var isCreator := IsCreator(t, req.id);
    var isAssignee := IsAssignee(t, req.id);
    var nextAssignedTo := NormalizeAssignee(body.assignedTo);
    if nextAssignedTo.Some? && !IsProjectUser(Some(p), nextAssignedTo.value) {
      return Err(AssigneeNotMember);
    }
    var updates := CollectUpdates(body);
    if updates.assignedTo.Some? && !canManage {
      return Err(OnlyOwnerReassigns);
    }
    var isEditingDetails := updates.text.Some? || updates.assignedTo.Some?;
    if isEditingDetails && !isCreator {
      return Err(OnlyCreatorEdits);
    }
    if !canManage {
      if t.assignedTo.Some? && !isAssignee {
        return Err(OnlyAssigneeUpdatesStatus);
      }
    }
    var task := t.(status := if updates.status.Some? then updates.status.value else t.status,
                   text := if updates.text.Some? then Str(updates.text.value) else t.text,
                   assignedTo := AssigneeAfter(t, updates.assignedTo));
    var activities := ActivityEvents(t, updates, req.id);
    assert updates.assignedTo == (if Reassigns(body) then Some(task.assignedTo) else None);
    var emits := [Emit(t.project, TaskUpdated(task))];
    if |activities| > 0 {
      emits := emits + ActivityEmits(t.project, activities);
    }
    r := Ok(Updated(task, activities, emits));
  }

  /** PUT /:id. `existing` is `Task.findById(id)` and `fetched` is
      `Project.findById(existing.project)`. */
  method UpdateTask(existing: Option<Task>, fetched: Option<Project>, req: Requester, body: UpdateBody)
    returns (r: Result<Updated, RouteError>)
    ensures existing.None? <==> r == Err(TaskNotFound)
    ensures existing.Some? && !IsMember(fetched, req.id) <==> r == Err(NotAuthorized)
    ensures existing.Some? && IsMember(fetched, req.id) ==>
      var verdict := UpdatePermission(existing.value, fetched.value, req, body);
      (verdict.Some? ==> r == Err(verdict.value)) && (verdict.None? <==> r.Ok?)
    ensures r.Ok? ==> existing.Some? && IsUpdateResult(existing.value, req, body, r.value)
  {
    if existing.None? {
      return Err(TaskNotFound);
    }
    var project := LoadProjectIfMember(fetched, req.id);
    if project.None? {
      return Err(NotAuthorized);
    }
    r := UpdateAsMember(existing.value, project.value, req, body);
  }

  /** A whitespace-only `assignedTo` is neither a reassignment nor a detail
      edit, so on its own it is judged as a plain status update. */
  lemma BlankAssigneeIsNoReassignment(t: Task, p: Project, req: Requester, status: WireValue, blank: string)
    requires IsBlank(blank)
    ensures !Reassigns(UpdateBody(status, Undefined, Str(blank)))
    ensures UpdatePermission(t, p, req, UpdateBody(status, Undefined, Str(blank)))
         == UpdatePermission(t, p, req, UpdateBody(status, Undefined, Undefined))
  {
  }

  /** DELETE /:id: only the task's creator may delete it; being the project
      owner or a global admin does not help. */
  function DeleteTask(taskId: string, existing: Option<Task>, fetched: Option<Project>, req: Requester): (r: Result<seq<Emit>, RouteError>)
    ensures r == Err(TaskNotFound) <==> existing.None?
    ensures r == Err(NotAuthorized) <==> existing.Some? && !IsMember(fetched, req.id)
    ensures r == Err(OnlyCreatorDeletes) <==> existing.Some? && IsMember(fetched, req.id) && !IsCreator(existing.value, req.id)
    ensures r.Ok? ==>
      var t := existing.value;
      r.value == [Emit(t.project, TaskDeleted(taskId)), Emit(t.project, ActivityCreated(Activity(t.project, t.id, req.id, Deleted)))]
  {
    if existing.None? then Err(TaskNotFound)
    else
      var t := existing.value;
      var project := LoadProjectIfMember(fetched, req.id);
      if project.None? then Err(NotAuthorized)
      else if !IsCreator(t, req.id) then Err(OnlyCreatorDeletes)
      else
        Ok([Emit(t.project, TaskDeleted(taskId)),
            Emit(t.project, ActivityCreated(Activity(t.project, t.id, req.id, Deleted)))])
  }

  /** A task after `task.save()` under the Task schema of
      backend/models/Task.js, which declares no `createdBy` path: Mongoose's
      strict mode drops the value, so the stored task has no creator. */
  function StoredUnderSchema(t: Task): (s: Task)
    ensures s.createdBy.None?
    ensures s.id == t.id && s.text == t.text && s.status == t.status
    ensures s.project == t.project && s.assignedTo == t.assignedTo
  {
    t.(createdBy := None)
  }

  /** As written, a task stored under that schema can be deleted by nobody,
      and no one may edit its text or assignee. */
  lemma SchemaDropsCreator(taskId: string, t: Task, fetched: Option<Project>, p: Project,
                           req: Requester, body: UpdateBody)
    ensures !DeleteTask(taskId, Some(StoredUnderSchema(t)), fetched, req).Ok?
    ensures IsMember(fetched, req.id) ==>
      DeleteTask(taskId, Some(StoredUnderSchema(t)), fetched, req) == Err(OnlyCreatorDeletes)
    ensures EditsDetails(body) ==> UpdatePermission(StoredUnderSchema(t), p, req, body).Some?
  {
    assert !IsCreator(StoredUnderSchema(t), req.id);
  }

  /** With `createdBy` kept, the requester who created a task may delete
      it. */
  lemma CreatorMayDelete(projectId: string, fetched: Option<Project>, req: Requester,
                         text: WireValue, assignedTo: WireValue, newId: string)
    requires CreateTask(projectId, fetched, req, text, assignedTo, newId).Ok?
    ensures var t := CreateTask(projectId, fetched, req, text, assignedTo, newId).value.task;
      DeleteTask(newId, Some(t), fetched, req).Ok?
  {
    var t := CreateTask(projectId, fetched, req, text, assignedTo, newId).value.task;
    assert IsMember(fetched, req.id) && IsCreator(t, req.id);
  }

  /** The requester's role has no say in deletion. */
  lemma DeleteIgnoresRole(taskId: string, existing: Option<Task>, fetched: Option<Project>, req: Requester, role: Option<string>)
    ensures DeleteTask(taskId, existing, fetched, req.(role := role)) == DeleteTask(taskId, existing, fetched, req)
  {
  }

  /** GET /activity/:projectId: the newest `ActivityLimit` records, for
      project users only. `newestFirst` is the project's activity sorted by
      creation time, latest first. */
  function ListActivity(fetched: Option<Project>, uid: string, newestFirst: seq<Activity>): (r: Result<seq<Activity>, RouteError>)
    ensures r.Err? <==> !IsMember(fetched, uid)
    ensures r.Err? ==> r.error == NotAuthorized
    ensures r.Ok? ==> |r.value| <= ActivityLimit && r.value <= newestFirst
    ensures r.Ok? ==> |r.value| == if |newestFirst| <= ActivityLimit then |newestFirst| else ActivityLimit
    ensures r.Ok? && |newestFirst| <= ActivityLimit ==> r.value == newestFirst
  {
    if LoadProjectIfMember(fetched, uid).None? then Err(NotAuthorized)
    else if |newestFirst| <= ActivityLimit then Ok(newestFirst)
    else Ok(newestFirst[..ActivityLimit])
  }

  /** GET /:projectId: the project's tasks, for project users only. */
  function ListTasks(fetched: Option<Project>, uid: string, projectTasks: seq<Task>): (r: Result<seq<Task>, RouteError>)
    ensures r.Err? <==> !IsMember(fetched, uid)
    ensures r.Ok? ==> r.value == projectTasks
  {
    if LoadProjectIfMember(fetched, uid).None? then Err(NotAuthorized) else Ok(projectTasks)
  }
}
