/** The list updates of the stand-alone task page
    (frontend/src/pages/tasks/Tasks.jsx): add, save an edit, change status,
    delete. Each takes the list and the server's answer and returns the new
    list. */
module TasksPage {
  import opened Js
  import opened ListOps

  datatype PageTask = PageTask(id: string, text: string, status: string)

  function PageTaskId(t: PageTask): string
  {
    t.id
  }

  /** `addTask`: the created task is appended unless its id is already
      listed. */
  function AddTask(prev: seq<PageTask>, created: PageTask): (r: seq<PageTask>)
    ensures HasKey(prev, PageTaskId, created.id) ==> r == prev
    ensures !HasKey(prev, PageTaskId, created.id) ==> r == prev + [created]
    ensures DistinctKeys(prev, PageTaskId) ==> DistinctKeys(r, PageTaskId)
  {
    AppendIfAbsent(prev, PageTaskId, created)
  }

  /** Adding the same answer twice adds it once. */
  lemma AddTaskIdempotent(prev: seq<PageTask>, created: PageTask)
    ensures AddTask(AddTask(prev, created), created) == AddTask(prev, created)
  {
    if !HasKey(prev, PageTaskId, created.id) {
      var once := prev + [created];
      assert once[|prev|].id == created.id;
    }
  }

  /** `saveTask`: blank text changes nothing; otherwise the task being edited
      is replaced by the server's answer, in place. */
  function SaveTask(tasks: seq<PageTask>, editText: string, editingId: string, saved: PageTask): (r: seq<PageTask>)
    ensures IsBlank(editText) ==> r == tasks
    ensures |r| == |tasks|
    ensures !IsBlank(editText) ==>
      forall i :: 0 <= i < |tasks| ==> r[i] == (if tasks[i].id == editingId then saved else tasks[i])
  {
    if IsBlank(editText) then tasks else ReplaceWhere(tasks, PageTaskId, editingId, saved)
  }

  /** `updateStatus(id, status)`: only the task with that id is replaced. */
  function UpdateStatus(tasks: seq<PageTask>, id: string, saved: PageTask): (r: seq<PageTask>)
    ensures |r| == |tasks|
    ensures forall i :: 0 <= i < |tasks| && tasks[i].id != id ==> r[i] == tasks[i]
    ensures forall i :: 0 <= i < |tasks| && tasks[i].id == id ==> r[i] == saved
  {
    ReplaceWhere(tasks, PageTaskId, id, saved)
  }

  /** `deleteTask(id)`. */
  function DeleteTask(tasks: seq<PageTask>, id: string): (r: seq<PageTask>)
    ensures !HasKey(r, PageTaskId, id)
    ensures forall t :: t in r <==> t in tasks && t.id != id
  {
    RemoveWhere(tasks, PageTaskId, id)
  }

  /** Deletion keeps the survivors' order: deleting from a list split in
      two is deleting from each half. */
  lemma DeleteKeepsOrder(a: seq<PageTask>, b: seq<PageTask>, id: string)
    ensures DeleteTask(a + b, id) == DeleteTask(a, id) + DeleteTask(b, id)
  {
    RemoveDistributes(a, b, PageTaskId, id);
  }

  /** An update that the server answered with the same id is forgotten by a
      later delete of that id. */
  lemma {:induction false} DeleteAfterUpdate(tasks: seq<PageTask>, id: string, saved: PageTask)
    requires saved.id == id
    ensures DeleteTask(UpdateStatus(tasks, id, saved), id) == DeleteTask(tasks, id)
  {
    if tasks != [] {
      var u := UpdateStatus(tasks, id, saved);
      assert u[1..] == UpdateStatus(tasks[1..], id, saved);
      DeleteAfterUpdate(tasks[1..], id, saved);
      assert u[0].id == id <==> tasks[0].id == id;
      if tasks[0].id != id {
        assert u[0] == tasks[0];
      }
    }
  }

  /** After a delete the same answer is appended again at the end. */
  lemma AddAfterDelete(tasks: seq<PageTask>, t: PageTask)
    ensures AddTask(DeleteTask(tasks, t.id), t) == DeleteTask(tasks, t.id) + [t]
  {
  }
}
