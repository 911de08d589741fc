/** The backend's owner/member/admin predicates over a project record
    (backend/utils/projectAccess.js). Ids are compared as strings after
    `toIdString`, so a member stored raw and one populated with its
    document compare alike. */
module ProjectAccess {
  import opened Js

  /** The fields of a project record that authorization reads. A missing
      `members` or `admins` array behaves as an empty one. */
  datatype Project = Project(id: string, owner: IdValue, members: seq<IdValue>, admins: seq<IdValue>)

  /** `toIdString(value)`. */
  function ToIdString(v: IdValue): (r: string)
    ensures v.NullId? ==> r == ""
    ensures v.Raw? ==> r == v.s
    ensures v.Doc? && v.id != "" ==> r == v.id
    ensures v.Doc? && v.id == "" ==> r == ObjectText
  {
    match v
    case NullId => ""
    case Raw(s) => s
    case Doc(id) => if id != "" then id else ObjectText
  }

  /** `list.some(m => toIdString(m) === uid)`. */
  function AnyIdIs(list: seq<IdValue>, uid: string): (r: bool)
    ensures r <==> exists i :: 0 <= i < |list| && ToIdString(list[i]) == uid
  {
    if list == [] then false
    else ToIdString(list[0]) == uid || AnyIdIs(list[1..], uid)
  }

  /** `isMember(project, userId)`: the owner is a member whatever `members`
      holds; "" stands for a missing user id. */
  function IsMember(p: Option<Project>, userId: string): (r: bool)
    ensures r ==> p.Some? && userId != ""
    ensures p.Some? && userId != "" && ToIdString(p.value.owner) == userId ==> r
    ensures p.Some? && userId != "" && ToIdString(p.value.owner) != userId ==>
      (r <==> exists i :: 0 <= i < |p.value.members| && ToIdString(p.value.members[i]) == userId)
  {
    if p.None? || userId == "" then false
    else ToIdString(p.value.owner) == userId || AnyIdIs(p.value.members, userId)
  }

  /** `isProjectUser(project, userId)`: a second copy of `isMember` in the
      source, kept apart here because the task routes call it by this name. */
  function IsProjectUser(p: Option<Project>, userId: string): bool
  {
    if p.None? || userId == "" then false
    else
      var uid := userId;
      ToIdString(p.value.owner) == uid || AnyIdIs(p.value.members, uid)
  }

  lemma ProjectUserIsMember(p: Option<Project>, userId: string)
    ensures IsProjectUser(p, userId) == IsMember(p, userId)
  {
  }

  /** `isProjectAdmin(project, userId)`: the owner, or an id in `admins`;
      `members` is not consulted. */
  function IsProjectAdmin(p: Option<Project>, userId: string): (r: bool)
    ensures r ==> p.Some? && userId != ""
    ensures p.Some? && userId != "" ==>
      (r <==> ToIdString(p.value.owner) == userId
              || exists i :: 0 <= i < |p.value.admins| && ToIdString(p.value.admins[i]) == userId)
  {
    if p.None? || userId == "" then false
    else ToIdString(p.value.owner) == userId || AnyIdIs(p.value.admins, userId)
  }

  lemma AdminIgnoresMembers(p: Project, members: seq<IdValue>, userId: string)
    ensures IsProjectAdmin(Some(p.(members := members)), userId) == IsProjectAdmin(Some(p), userId)
  {
  }

  /** Populating a member's reference with its document (whose `_id` prints
      as the same non-empty hex string) never changes membership. */
  lemma {:induction false} PopulatedMemberSame(p: Project, i: nat, userId: string)
    requires i < |p.members| && p.members[i].Raw? && p.members[i].s != ""
    ensures IsMember(Some(p.(members := p.members[i := Doc(p.members[i].s)])), userId)
         == IsMember(Some(p), userId)
  {
    var q := p.(members := p.members[i := Doc(p.members[i].s)]);
    assert forall j :: 0 <= j < |p.members| ==> ToIdString(q.members[j]) == ToIdString(p.members[j]);
    if userId != "" && ToIdString(p.owner) != userId {
      if IsMember(Some(p), userId) {
        var j :| 0 <= j < |p.members| && ToIdString(p.members[j]) == userId;
        assert ToIdString(q.members[j]) == userId;
      }
      if IsMember(Some(q), userId) {
        var j :| 0 <= j < |q.members| && ToIdString(q.members[j]) == userId;
        assert ToIdString(p.members[j]) == userId;
      }
    }
  }

  /** `loadProjectIfMember(projectId, userId)`, with the result of
      `Project.findById(projectId)` passed in as `fetched`. */
  function LoadProjectIfMember(fetched: Option<Project>, userId: string): (r: Option<Project>)
    ensures r.Some? <==> IsMember(fetched, userId)
    ensures r.Some? ==> r == fetched
    ensures fetched.None? ==> r.None?
  {
    if !IsMember(fetched, userId) then None else fetched
  }
}
