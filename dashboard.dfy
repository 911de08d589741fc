/** The dashboard's client-side state (frontend/src/pages/Dashboard.jsx):
    task de-duplication, the owner/admin predicates, the socket event
    reducers, the polling fallback, room switching on project selection and
    the reaction to a revoked or denied project. */
module Dashboard {
  import opened Js
  import opened ListOps
  import ProjectAccess

  /** A task as the client holds it; `id` is `String(_id)`, "" when the
      payload has no `_id`. `createdBy` is `None` when the field is absent. */
  datatype TaskView = TaskView(id: string, text: string, status: string, assignedTo: IdValue, createdBy: Option<IdValue>)

  datatype ActivityView = ActivityView(id: string, action: string)

  /** The fields of a project the dashboard's predicates read. */
  datatype ClientProject = ClientProject(id: string, owner: IdValue, admins: seq<IdValue>)

  /** What the dashboard emits on its socket. */
  datatype Command = JoinRoom(projectId: WireValue) | LeaveRoom(projectId: WireValue)

  function TaskId(t: TaskView): string
  {
    t.id
  }

  function ProjectId(p: ClientProject): string
  {
    p.id
  }

  /** The ids are distinct and none is missing. */
  predicate WellKeyed(s: seq<TaskView>)
  {
    DistinctKeys(s, TaskId) && forall k :: 0 <= k < |s| ==> s[k].id != ""
  }

  // ---------------------------------------------------------------------
  // dedupeTasks

  /** The values of a JavaScript `Map` after `map.set(String(t._id), t)` for
      every task `t` of `list` whose `_id` is truthy: setting a new key
      appends it, setting a present key replaces its value in place. */
  function Deduped(list: seq<TaskView>): (r: seq<TaskView>)
    ensures |r| <= |list|
  {
    if list == [] then []
    else
      var prev := Deduped(list[..|list| - 1]);
      var t := list[|list| - 1];
      if t.id == "" then prev
      else if HasKey(prev, TaskId, t.id) then ReplaceWhere(prev, TaskId, t.id, t)
      else prev + [t]
  }

  /** `list[i]` is the last task of `list` with its id. */
  predicate LastWithId(list: seq<TaskView>, i: nat)
    requires i < |list|
  {
    forall j :: i < j < |list| ==> list[j].id != list[i].id
  }

  /** Some task with id `x` comes before every task with id `y`. */
  predicate FirstBefore(list: seq<TaskView>, x: string, y: string)
  {
    exists i :: 0 <= i < |list| && list[i].id == x && forall j :: 0 <= j <= i ==> list[j].id != y
  }

  lemma {:induction false} DedupedWellKeyed(list: seq<TaskView>)
    ensures WellKeyed(Deduped(list))
  {
    if list != [] {
      var p := list[..|list| - 1];
      var t := list[|list| - 1];
      DedupedWellKeyed(p);
      var prev := Deduped(p);
      if t.id != "" {
        if HasKey(prev, TaskId, t.id) {
          ReplaceKeepsKeys(prev, TaskId, t.id, t);
          var r := ReplaceWhere(prev, TaskId, t.id, t);
          assert forall k :: 0 <= k < |r| ==> r[k].id == Keys(r, TaskId)[k] == Keys(prev, TaskId)[k];
        } else {
          var r := prev + [t];
          assert forall k :: 0 <= k < |prev| ==> r[k] == prev[k];
        }
      }
    }
  }

  /** Exactly the non-missing ids of the input survive. */
  lemma {:induction false} DedupedHasKey(list: seq<TaskView>, id: string)
    ensures HasKey(Deduped(list), TaskId, id) <==> id != "" && HasKey(list, TaskId, id)
  {
    if list != [] {
      var p := list[..|list| - 1];
      var t := list[|list| - 1];
      assert list == p + [t];
      DedupedHasKey(p, id);
      HasKeySnoc(p, t, TaskId, id);
      var prev := Deduped(p);
      if t.id != "" {
        if HasKey(prev, TaskId, t.id) {
          ReplaceKeepsHasKey(prev, TaskId, t.id, t, id);
        } else {
          HasKeySnoc(prev, t, TaskId, id);
        }
      }
    }
  }


  lemma LastWithIdExtends(p: seq<TaskView>, t: TaskView, i: nat)
    requires i < |p| && LastWithId(p, i) && t.id != p[i].id
    ensures LastWithId(p + [t], i)
  {
    var l := p + [t];
    forall j | i < j < |l| ensures l[j].id != l[i].id {
      if j < |p| {
        assert l[j] == p[j];
      }
    }
  }

  /** Each kept task is the last one in the input with its id: a later
      duplicate's value wins. */
  lemma {:induction false} DedupedLastWins(list: seq<TaskView>)
    ensures forall k :: 0 <= k < |Deduped(list)| ==>
      exists i :: 0 <= i < |list| && list[i] == Deduped(list)[k] && LastWithId(list, i)
  {
    if list != [] {
      var n := |list|;
      var p := list[..n - 1];
      var t := list[n - 1];
      assert list == p + [t];
      DedupedLastWins(p);
      DedupedWellKeyed(p);
      var prev := Deduped(p);
      var r := Deduped(list);
      forall k | 0 <= k < |r|
        ensures exists i :: 0 <= i < n && list[i] == r[k] && LastWithId(list, i)
      {
        if t.id != "" && ((HasKey(prev, TaskId, t.id) && prev[k].id == t.id) || (!HasKey(prev, TaskId, t.id) && k == |prev|)) {
          assert r[k] == t;
          assert list[n - 1] == r[k] && LastWithId(list, n - 1);
        } else {
          assert k < |prev| && r[k] == prev[k];
          assert prev[k].id != t.id;
          var i :| 0 <= i < |p| && p[i] == prev[k] && LastWithId(p, i);
          LastWithIdExtends(p, t, i);
          assert list[i] == r[k] && LastWithId(list, i);
        }
      }
      assert forall k :: 0 <= k < |r| ==> exists i :: 0 <= i < n && list[i] == r[k] && LastWithId(list, i);
    } else {
      assert Deduped(list) == [];
    }
  }

  lemma FirstBeforeExtends(p: seq<TaskView>, t: TaskView, x: string, y: string)
    requires FirstBefore(p, x, y)
    ensures FirstBefore(p + [t], x, y)
  {
    var l := p + [t];
    var i :| 0 <= i < |p| && p[i].id == x && forall j :: 0 <= j <= i ==> p[j].id != y;
    assert l[i].id == x;
    assert forall j :: 0 <= j <= i ==> l[j] == p[j];
  }

  /** Ids keep the order of their first occurrence. */
  lemma {:induction false} DedupedFirstOrder(list: seq<TaskView>)
    ensures forall a, b :: 0 <= a < b < |Deduped(list)| ==>
      FirstBefore(list, Deduped(list)[a].id, Deduped(list)[b].id)
  {
    if list != [] {
      var n := |list|;
      var p := list[..n - 1];
      var t := list[n - 1];
      assert list == p + [t];
      DedupedFirstOrder(p);
      var prev := Deduped(p);
      var r := Deduped(list);
      forall a, b | 0 <= a < b < |r| ensures FirstBefore(list, r[a].id, r[b].id) {
        if t.id == "" {
          FirstBeforeExtends(p, t, r[a].id, r[b].id);
        } else if HasKey(prev, TaskId, t.id) {
          ReplaceKeepsKeys(prev, TaskId, t.id, t);
          assert r[a].id == Keys(r, TaskId)[a] == Keys(prev, TaskId)[a] == prev[a].id;
          assert r[b].id == Keys(r, TaskId)[b] == Keys(prev, TaskId)[b] == prev[b].id;
          FirstBeforeExtends(p, t, r[a].id, r[b].id);
        } else if b < |prev| {
          assert r[a] == prev[a] && r[b] == prev[b];
          FirstBeforeExtends(p, t, r[a].id, r[b].id);
        } else {
          assert r[a] == prev[a] && r[b] == t;
          DedupedWellKeyed(p);
          DedupedHasKey(p, prev[a].id);
          DedupedHasKey(p, t.id);
          assert HasKey(prev, TaskId, prev[a].id);
          var i :| 0 <= i < |p| && p[i].id == prev[a].id;
          assert list[i].id == r[a].id;
          forall j | 0 <= j <= i ensures list[j].id != t.id {
            assert list[j] == p[j];
          }
        }
      }
    }
  }

  /** A list that is already well keyed is its own de-duplication. */
  lemma {:induction false} DedupedOfWellKeyed(list: seq<TaskView>)
    requires WellKeyed(list)
    ensures Deduped(list) == list
  {
    if list != [] {
      var n := |list|;
      var p := list[..n - 1];
      var t := list[n - 1];
      assert WellKeyed(p) by {
        forall i, j | 0 <= i < j < |p| ensures p[i].id != p[j].id {
          assert p[i] == list[i] && p[j] == list[j];
        }
      }
      DedupedOfWellKeyed(p);
      forall i | 0 <= i < |p| ensures p[i].id != t.id {
        assert p[i] == list[i];
      }
      assert list == p + [t];
    }
  }

  /** `dedupeTasks` is idempotent. */
  lemma DedupedIdempotent(list: seq<TaskView>)
    ensures Deduped(Deduped(list)) == Deduped(list)
  {
    DedupedWellKeyed(list);
    DedupedOfWellKeyed(Deduped(list));
  }

  /** The `task:created` reducer `dedupeTasks([...prev, task])` on a well
      keyed list: a task without id is dropped, a new id is appended at the
      end, a known id is replaced in place. */
  lemma CreatedAppendsOrReplaces(prev: seq<TaskView>, t: TaskView)
    requires WellKeyed(prev)
    ensures Deduped(prev + [t]) ==
      if t.id == "" then prev
      else if HasKey(prev, TaskId, t.id) then ReplaceWhere(prev, TaskId, t.id, t)
      else prev + [t]
    ensures WellKeyed(Deduped(prev + [t]))
  {
    assert (prev + [t])[..|prev|] == prev;
    DedupedOfWellKeyed(prev);
    DedupedWellKeyed(prev + [t]);
  }

  /** The `Map` values in insertion order. */
  function MapValues(order: seq<string>, m: map<string, TaskView>): (r: seq<TaskView>)
    requires forall k :: 0 <= k < |order| ==> order[k] in m
    ensures |r| == |order|
    ensures forall k :: 0 <= k < |order| ==> r[k] == m[order[k]]
  {
    seq(|order|, k requires 0 <= k < |order| => m[order[k]])
  }

  /** The `Map` and its insertion order agree: every key is recorded once,
      and each value is stored under its own id. */
  predicate MapState(order: seq<string>, m: map<string, TaskView>)
  {
    && (forall k :: 0 <= k < |order| ==> order[k] in m)
    && (forall key :: key in m ==> key in order)
    && (forall key :: key in m ==> m[key].id == key)
    && (forall a, b :: 0 <= a < b < |order| ==> order[a] != order[b])
  }

  /** `map.set` of a present key replaces its value in place. */
  lemma SetPresent(order: seq<string>, m: map<string, TaskView>, t: TaskView)
    requires MapState(order, m) && t.id in m
    ensures MapState(order, m[t.id := t])
    ensures HasKey(MapValues(order, m), TaskId, t.id)
    ensures MapValues(order, m[t.id := t]) == ReplaceWhere(MapValues(order, m), TaskId, t.id, t)
  {
    var prev := MapValues(order, m);
    var k0 :| 0 <= k0 < |order| && order[k0] == t.id;
    assert prev[k0].id == t.id;
    var m' := m[t.id := t];
    forall k | 0 <= k < |order|
      ensures MapValues(order, m')[k] == ReplaceWhere(prev, TaskId, t.id, t)[k]
    {
      assert prev[k].id == order[k];
    }
  }

  /** `map.set` of a new key appends it. */
  lemma SetAbsent(order: seq<string>, m: map<string, TaskView>, t: TaskView)
    requires MapState(order, m) && t.id !in m
    ensures MapState(order + [t.id], m[t.id := t])
    ensures !HasKey(MapValues(order, m), TaskId, t.id)
    ensures MapValues(order + [t.id], m[t.id := t]) == MapValues(order, m) + [t]
  {
    var prev := MapValues(order, m);
    forall k | 0 <= k < |prev| ensures prev[k].id != t.id {
      assert prev[k] == m[order[k]];
    }
    var order' := order + [t.id];
    var m' := m[t.id := t];
    forall k | 0 <= k < |order| ensures MapValues(order', m')[k] == prev[k] {
      assert order'[k] == order[k] != t.id;
    }
  }

  /** `dedupeTasks(list)`: one pass that fills a `Map` keyed by id, with
      `order` recording the keys in insertion order. */
  method DedupeTasks(list: seq<TaskView>) returns (r: seq<TaskView>)
    ensures r == Deduped(list)
  {
    var m: map<string, TaskView> := map[];
    var order: seq<string> := [];
    var i := 0;
    while i < |list|
      invariant 0 <= i <= |list|
      invariant MapState(order, m)
      invariant Deduped(list[..i]) == MapValues(order, m)
    {
      var t := list[i];
      assert list[..i + 1][..i] == list[..i];
      assert list[..i + 1][i] == t;
      if t.id != "" {
        if t.id in m {
          SetPresent(order, m, t);
          m := m[t.id := t];
        } else {
          SetAbsent(order, m, t);
          order := order + [t.id];
          m := m[t.id := t];
        }
      }
      i := i + 1;
    }
    assert list[..i] == list;
    r := MapValues(order, m);
  }

  // ---------------------------------------------------------------------
  // Ownership and lead predicates

  /** A reference is truthy unless it is null or an empty raw id. */
  predicate RefTruthy(v: IdValue)
  {
    match v
    case NullId => false
    case Raw(s) => s != ""
    case Doc(_) => true
  }

  /** `String(a?._id || a)`. */
  function RefString(v: IdValue): (r: string)
    ensures v.NullId? ==> r == "null"
    ensures !v.NullId? ==> r == ProjectAccess.ToIdString(v)
  {
    match v
    case NullId => "null"
    case Raw(s) => s
    case Doc(id) => if id != "" then id else ObjectText
  }

  /** `isOwner(project)` for the signed-in user `uid` ("" when absent). */
  predicate IsOwner(p: Option<ClientProject>, uid: string)
  {
    && p.Some? && uid != ""
    && ((p.value.owner.Doc? && p.value.owner.id != "" && p.value.owner.id == uid)
        || (RefTruthy(p.value.owner) && IdToJsString(p.value.owner) == uid))
  }

  /** Except for a user id that reads "[object Object]", the client's owner
      test agrees with the backend's `toIdString(owner) === userId`. */
  lemma IsOwnerAgreesWithBackend(p: ClientProject, uid: string)
    requires uid != "" && uid != ObjectText
    ensures IsOwner(Some(p), uid) <==> ProjectAccess.ToIdString(p.owner) == uid
  {
  }

  /** `isProjectAdminMember(project, memberId)`. */
  predicate IsProjectAdminMember(p: Option<ClientProject>, memberId: string)
  {
    p.Some? && memberId != "" && exists i :: 0 <= i < |p.value.admins| && RefString(p.value.admins[i]) == memberId
  }

  /** `canLeadProject(project)`. */
  predicate CanLeadProject(p: Option<ClientProject>, uid: string)
  {
    p.Some? && uid != "" && (IsOwner(p, uid) || IsProjectAdminMember(p, uid))
  }

  /** The backend record with the same owner and admins. */
  function AsBackend(p: ClientProject, members: seq<IdValue>): (q: ProjectAccess.Project)
    ensures q.owner == p.owner && q.admins == p.admins && q.members == members
  {
    ProjectAccess.Project(p.id, p.owner, members, p.admins)
  }

  /** `canLeadProject` holds exactly when the user is owner or listed in
      `admins`, i.e. when the backend's `isProjectAdmin` holds, whatever the
      members are (ids reading "null" or "[object Object]" aside). */
  lemma CanLeadIsProjectAdmin(p: ClientProject, members: seq<IdValue>, uid: string)
    requires uid != "" && uid != ObjectText && uid != "null"
    ensures CanLeadProject(Some(p), uid) <==> ProjectAccess.IsProjectAdmin(Some(AsBackend(p, members)), uid)
  {
    IsOwnerAgreesWithBackend(p, uid);
    var q := AsBackend(p, members);
    if IsProjectAdminMember(Some(p), uid) {
      var i :| 0 <= i < |p.admins| && RefString(p.admins[i]) == uid;
      assert ProjectAccess.ToIdString(q.admins[i]) == uid;
    }
    if exists i :: 0 <= i < |q.admins| && ProjectAccess.ToIdString(q.admins[i]) == uid {
      var i :| 0 <= i < |q.admins| && ProjectAccess.ToIdString(q.admins[i]) == uid;
      assert RefString(p.admins[i]) == uid;
    }
  }

  /** `getProjectAdmins(project)`: the admins in order, minus any entry that
      names the owner. */
  function GetProjectAdmins(p: Option<ClientProject>): (r: seq<IdValue>)
    ensures p.None? ==> r == []
    ensures p.Some? ==> forall a :: a in r <==> a in p.value.admins && RefString(a) != ProjectAccess.ToIdString(p.value.owner)
    ensures p.Some? ==> forall k :: 0 <= k < |r| ==> RefString(r[k]) != ProjectAccess.ToIdString(p.value.owner)
  {
    if p.None? then [] else RemoveWhere(p.value.admins, RefString, ProjectAccess.ToIdString(p.value.owner))
  }

  /** `String(creatorId)` where the creator is `createdBy._id || createdBy.id`
      for a populated document and `createdBy` itself otherwise. */
  function CreatorString(createdBy: Option<IdValue>): (r: string)
    ensures createdBy.None? ==> r == "undefined"
    ensures createdBy == Some(NullId) ==> r == "null"
  {
    match createdBy
    case None => "undefined"
    case Some(NullId) => "null"
    case Some(Raw(s)) => s
    case Some(Doc(id)) => if id != "" then id else "undefined"
  }

  /** `isTaskCreator(task)`. */
  predicate IsTaskCreator(t: Option<TaskView>, uid: string)
  {
    t.Some? && uid != "" && CreatorString(t.value.createdBy) == uid
  }

  /** A populated creator and a raw one compare alike, and a task that
      carries no creator belongs to no real user. */
  lemma TaskCreatorIgnoresPopulate(t: TaskView, id: string, uid: string)
    requires id != "" && uid != "undefined"
    ensures IsTaskCreator(Some(t.(createdBy := Some(Doc(id)))), uid) == IsTaskCreator(Some(t.(createdBy := Some(Raw(id)))), uid)
    ensures !IsTaskCreator(Some(t.(createdBy := None)), uid)
  {
  }

  // ---------------------------------------------------------------------
  // Activity feed

  const ActivityCap: nat := 50

  /** The `activity:created` reducer `[activity, ...prev].slice(0, 50)`. */
  function PrependActivity(prev: seq<ActivityView>, a: ActivityView): (r: seq<ActivityView>)
    ensures |r| == if |prev| < ActivityCap then |prev| + 1 else ActivityCap
    ensures r[0] == a
    ensures r[1..] == prev[..|r| - 1]
  {
    ([a] + prev)[..if |prev| < ActivityCap then |prev| + 1 else ActivityCap]
  }

  // ---------------------------------------------------------------------
  // The component's state

  class Session {
    var projects: seq<ClientProject>
    var selected: Option<ClientProject>
    var tasks: seq<TaskView>
    var activities: seq<ActivityView>
    /** `previousProjectId.current`, "" for null. */
    var previousProjectId: string
    /** Everything emitted on the socket, oldest first. */
    var sent: seq<Command>
    /** `socket.connected`. */
    var connected: bool
    /** The selected-project effect's `pollId`. */
    var pollId: Option<nat>
    /** The live `setInterval` handles. */
    var timers: set<nat>
    var nextTimer: nat
    var notice: string

    /** The live intervals are exactly the one `pollId` names, if any. */
    ghost predicate TimersValid()
      reads this
    {
      && timers == (if pollId.Some? then {pollId.value} else {})
      && forall h :: h in timers ==> h < nextTimer
    }

    /** The tasks are well keyed; with nothing selected there are no tasks,
        no activity, no previous room and no polling; with a project
        selected, polling runs exactly while the socket is disconnected. */
    ghost predicate Valid()
      reads this
    {
      && WellKeyed(tasks)
      && TimersValid()
      && (selected.None? ==> tasks == [] && activities == [] && previousProjectId == "" && pollId.None?)
      && (selected.Some? ==> (pollId.Some? <==> !connected))
    }

    constructor (isConnected: bool)
      ensures Valid()
      ensures projects == [] && selected.None? && sent == [] && connected == isConnected && timers == {}
    {
      projects, selected, tasks, activities := [], None, [], [];
      previousProjectId, sent, connected := "", [], isConnected;
      pollId, timers, nextTimer, notice := None, {}, 0, "";
    }

    /** `startPolling`: creates an interval only when none is active. */
    method StartPolling()
      requires TimersValid()
      modifies this
      ensures TimersValid()
      ensures pollId.Some? && |timers| == 1
      ensures old(pollId).Some? ==> pollId == old(pollId) && timers == old(timers)
      ensures old(pollId).None? ==> pollId == Some(old(nextTimer))
      ensures projects == old(projects) && selected == old(selected) && tasks == old(tasks)
      ensures activities == old(activities) && previousProjectId == old(previousProjectId)
      ensures sent == old(sent) && connected == old(connected) && notice == old(notice)
    {
      if pollId.None? {
        pollId := Some(nextTimer);
        timers := timers + {nextTimer};
        nextTimer := nextTimer + 1;
      }
    }

    /** `stopPolling`: clears the active interval; a no-op when idle. */
    method StopPolling()
      requires TimersValid()
      modifies this
      ensures TimersValid()
      ensures pollId.None? && timers == {}
      ensures nextTimer == old(nextTimer)
      ensures projects == old(projects) && selected == old(selected) && tasks == old(tasks)
      ensures activities == old(activities) && previousProjectId == old(previousProjectId)
      ensures sent == old(sent) && connected == old(connected) && notice == old(notice)
    {
      if pollId.Some? {
        timers := timers - {pollId.value};
        pollId := None;
      }
    }

    /** `clearSelectedProject()` together with the cleanup of the
        selected-project effect, which clears its interval, and the
        `previousProjectId.current = null` that the access-revoked and
        access-denied handlers perform right before calling it (the
        function itself leaves that ref alone). */
    method ClearSelection()
      requires TimersValid()
      modifies this
      ensures Valid()
      ensures selected.None? && tasks == [] && activities == [] && previousProjectId == ""
      ensures pollId.None? && timers == {}
      ensures projects == old(projects) && sent == old(sent) && connected == old(connected) && notice == old(notice)
    {
      StopPolling();
      selected, tasks, activities, previousProjectId := None, [], [], "";
    }

    /** The synchronous start of `selectProject(project)`: the selection
        changes, the effect keyed on it restarts (polling again if
        disconnected), and a previous, different project's room is left. */
    method BeginSelect(p: ClientProject)
      requires Valid()
      modifies this
      ensures Valid()
      ensures selected == Some(p)
      ensures sent == old(sent) + (if old(previousProjectId) != "" && old(previousProjectId) != p.id
                                   then [LeaveRoom(Str(old(previousProjectId)))] else [])
      ensures projects == old(projects) && connected == old(connected) && notice == old(notice)
      ensures tasks == old(tasks) && activities == old(activities) && previousProjectId == old(previousProjectId)
    {
      StopPolling();
      selected := Some(p);
      if !connected {
        StartPolling();
      }
      if previousProjectId != "" && previousProjectId != p.id {
        sent := sent + [LeaveRoom(Str(previousProjectId))];
      }
    }

    /** `selectProject(project)`: after `BeginSelect`, the project's tasks
        and activity are fetched (`fetchedTasks` is `None` when that request
        throws, which ends the handler before the join; `fetchedActivities`
        is `None` when the activity request fails, which shows an empty
        feed); then its room is joined. */
    method SelectProject(p: ClientProject, fetchedTasks: Option<seq<TaskView>>, fetchedActivities: Option<seq<ActivityView>>)
      requires Valid()
      modifies this
      ensures Valid()
      ensures selected == Some(p)
      ensures projects == old(projects) && connected == old(connected) && notice == old(notice)
      ensures var leave := if old(previousProjectId) != "" && old(previousProjectId) != p.id
                           then [LeaveRoom(Str(old(previousProjectId)))] else [];
        if p.id != "" && fetchedTasks.None? then
          sent == old(sent) + leave && previousProjectId == old(previousProjectId)
          && tasks == old(tasks) && activities == old(activities)
        else
          sent == old(sent) + leave + [JoinRoom(Str(p.id))] && previousProjectId == p.id
          && (p.id != "" ==>
                (tasks == Deduped(fetchedTasks.value)
                 && activities == (if fetchedActivities.Some? then fetchedActivities.value else [])))
          && (p.id == "" ==> tasks == old(tasks) && activities == old(activities))
    {
      BeginSelect(p);
      if p.id != "" {
        if fetchedTasks.None? {
          return;
        }
        var loaded := DedupeTasks(fetchedTasks.value);
        DedupedWellKeyed(fetchedTasks.value);
        tasks := loaded;
        activities := if fetchedActivities.Some? then fetchedActivities.value else [];
      }
      sent := sent + [JoinRoom(Str(p.id))];
      previousProjectId := p.id;
    }

    /** `task:created`, handled while a project is selected. */
    method OnTaskCreated(t: TaskView)
      requires Valid()
      modifies this
      ensures Valid()
      ensures tasks == if old(selected).Some? then Deduped(old(tasks) + [t]) else old(tasks)
      ensures selected == old(selected) && activities == old(activities) && sent == old(sent)
      ensures pollId == old(pollId) && timers == old(timers) && projects == old(projects)
    {
      if selected.Some? {
        var next := DedupeTasks(tasks + [t]);
        CreatedAppendsOrReplaces(tasks, t);
        tasks := next;
      }
    }

    /** `task:updated`: the task with the payload's id is replaced. */
    method OnTaskUpdated(t: TaskView)
      requires Valid()
      modifies this
      ensures Valid()
      ensures tasks == if old(selected).Some? then ReplaceWhere(old(tasks), TaskId, t.id, t) else old(tasks)
      ensures selected == old(selected) && activities == old(activities) && sent == old(sent)
      ensures pollId == old(pollId) && timers == old(timers) && projects == old(projects)
    {
      if selected.Some? {
        ReplaceKeepsKeys(tasks, TaskId, t.id, t);
        var next := ReplaceWhere(tasks, TaskId, t.id, t);
        assert forall k :: 0 <= k < |next| ==> next[k].id == Keys(next, TaskId)[k] == Keys(tasks, TaskId)[k];
        tasks := next;
      }
    }

    /** `task:deleted`: every task with the payload's id goes. */
    method OnTaskDeleted(id: string)
      requires Valid()
      modifies this
      ensures Valid()
      ensures tasks == if old(selected).Some? then RemoveWhere(old(tasks), TaskId, id) else old(tasks)
      ensures selected == old(selected) && activities == old(activities) && sent == old(sent)
      ensures pollId == old(pollId) && timers == old(timers) && projects == old(projects)
    {
      if selected.Some? {
        RemoveKeepsDistinct(tasks, TaskId, id);
        var next := RemoveWhere(tasks, TaskId, id);
        assert forall k :: 0 <= k < |next| ==> next[k] in tasks;
        tasks := next;
      }
    }

    /** `activity:created`. */
    method OnActivityCreated(a: ActivityView)
      requires Valid()
      modifies this
      ensures Valid()
      ensures activities == if old(selected).Some? then PrependActivity(old(activities), a) else old(activities)
      ensures selected == old(selected) && tasks == old(tasks) && sent == old(sent)
      ensures pollId == old(pollId) && timers == old(timers) && projects == old(projects)
    {
      if selected.Some? {
        activities := PrependActivity(activities, a);
      }
    }

    /** The socket's `connect` event: polling stops. */
    method OnConnect()
      requires Valid()
      modifies this
      ensures Valid()
      ensures connected
      ensures selected.Some? ==> pollId.None? && timers == {}
      ensures selected == old(selected) && tasks == old(tasks) && activities == old(activities) && sent == old(sent)
    {
      connected := true;
      if selected.Some? {
        StopPolling();
      }
    }

    /** The socket's `disconnect` event: polling starts, at most once. */
    method OnDisconnect()
      requires Valid()
      modifies this
      ensures Valid()
      ensures !connected
      ensures selected.Some? ==> pollId.Some? && |timers| == 1
      ensures old(pollId).Some? ==> pollId == old(pollId) && timers == old(timers)
      ensures selected == old(selected) && tasks == old(tasks) && activities == old(activities) && sent == old(sent)
    {
      connected := false;
      if selected.Some? {
        StartPolling();
      }
    }

    /** One tick of the polling interval: `refreshProjectData`, whose
        results are `fetched` (`None` when a request fails, which is
        swallowed). */
    method PollTick(fetched: Option<(seq<TaskView>, seq<ActivityView>)>)
      requires Valid()
      modifies this
      ensures Valid()
      ensures old(pollId).Some? && fetched.Some? ==>
        tasks == Deduped(fetched.value.0) && activities == fetched.value.1
      ensures old(pollId).None? || fetched.None? ==> tasks == old(tasks) && activities == old(activities)
      ensures selected == old(selected) && sent == old(sent) && pollId == old(pollId) && timers == old(timers)
    {
      if pollId.Some? && fetched.Some? {
        var loaded := DedupeTasks(fetched.value.0);
        DedupedWellKeyed(fetched.value.0);
        tasks := loaded;
        activities := fetched.value.1;
      }
    }

    /** `project:access_revoked {projectId}`: the project leaves the list;
        if it is the selected one its room is left and the selection
        cleared. */
    method OnAccessRevoked(projectId: WireValue)
      requires Valid()
      modifies this
      ensures Valid()
      ensures !Truthy(projectId) ==>
        projects == old(projects) && selected == old(selected) && tasks == old(tasks) && sent == old(sent)
      ensures Truthy(projectId) ==> projects == RemoveWhere(old(projects), ProjectId, ToJsString(projectId))
      ensures var hit := Truthy(projectId) && old(selected).Some? && old(selected).value.id != ""
                         && old(selected).value.id == ToJsString(projectId);
        (hit ==> selected.None? && tasks == [] && previousProjectId == "" && sent == old(sent) + [LeaveRoom(projectId)]
                 && pollId.None? && timers == {})
        && (!hit ==> selected == old(selected) && tasks == old(tasks) && sent == old(sent) && pollId == old(pollId))
    {
      if !Truthy(projectId) {
        return;
      }
      var key := ToJsString(projectId);
      projects := RemoveWhere(projects, ProjectId, key);
      if selected.Some? && selected.value.id != "" && selected.value.id == key {
        sent := sent + [LeaveRoom(projectId)];
        ClearSelection();
        notice := "You were removed from this project";
      }
    }

    /** `project:access_denied {projectId}`: a matching selection is
        cleared and the project list reloaded (`reloaded`, `None` when the
        request fails); nothing is emitted and the list is not filtered. */
    method OnAccessDenied(projectId: WireValue, reloaded: Option<seq<ClientProject>>)
      requires Valid()
      modifies this
      ensures Valid()
      ensures sent == old(sent)
      ensures !Truthy(projectId) ==> projects == old(projects) && selected == old(selected) && tasks == old(tasks)
      ensures Truthy(projectId) ==> projects == if reloaded.Some? then reloaded.value else old(projects)
      ensures var hit := Truthy(projectId) && old(selected).Some? && old(selected).value.id != ""
                         && old(selected).value.id == ToJsString(projectId);
        (hit ==> selected.None? && tasks == [] && previousProjectId == "" && pollId.None? && timers == {})
        && (!hit ==> selected == old(selected) && tasks == old(tasks) && pollId == old(pollId))
    {
      if !Truthy(projectId) {
        return;
      }
      if selected.Some? && selected.value.id != "" && selected.value.id == ToJsString(projectId) {
        ClearSelection();
        notice := "Project access denied";
      }
      if reloaded.Some? {
        projects := reloaded.value;
      }
    }
  }

  /** Reselecting the current project emits a join and no leave, while
      switching to another project leaves the old room before joining the
      new one. */
  method SwitchThenReselect(a: ClientProject, b: ClientProject) returns (sent: seq<Command>)
    requires a.id != "" && b.id != "" && a.id != b.id
    ensures sent == [JoinRoom(Str(a.id)), JoinRoom(Str(a.id)), LeaveRoom(Str(a.id)), JoinRoom(Str(b.id))]
  {
    var s := new Session(true);
    s.SelectProject(a, Some([]), Some([]));
    assert s.sent == [JoinRoom(Str(a.id))];
    s.SelectProject(a, Some([]), Some([]));
    assert s.sent == [JoinRoom(Str(a.id)), JoinRoom(Str(a.id))];
    s.SelectProject(b, Some([]), Some([]));
    sent := s.sent;
  }
}
