/** The project chat panel (frontend/src/components/Chat.jsx): the message
    list, the edit and delete dialogs, and the per-project effect that loads
    messages, polls every `PollMs` milliseconds and discards responses that
    arrive after the effect was cleaned up. */
module Chat {
  import opened Js
  import opened ListOps

  const PollMs: nat := 3000

  datatype Message = Message(id: string, text: string, sender: string)

  function MessageId(m: Message): string
  {
    m.id
  }

  /** The outcome of a request: it threw, or it answered with a body that
      may be empty. */
  datatype Response<T> = Failed | Answered(data: Option<T>)

  class ChatPanel {
    var messages: seq<Message>
    /** The draft in the input box (`msg`). */
    var draft: string
    var menuIndex: Option<nat>
    /** `editingMessageId`, "" for null. */
    var editingId: string
    var editText: string
    var confirmOpen: bool
    /** `confirm.messageId`, "" for null. */
    var confirmId: string
    /** `previousProjectId.current`, "" for null. */
    var previousProjectId: string
    /** Which run of the project effect is the latest; a load carries the
        generation that issued it. */
    var generation: nat
    /** The latest run has not been cleaned up (its `cancelled` is false). */
    var live: bool
    /** `pollRef.current`. */
    var pollRef: Option<nat>
    /** The live `setInterval` handles. */
    var timers: set<nat>
    var nextTimer: nat

    /** Exactly one interval runs while the latest effect is live, none
        otherwise. */
    ghost predicate Valid()
      reads this
    {
      && (live ==> pollRef.Some? && timers == {pollRef.value})
      && (!live ==> timers == {})
      && (forall h :: h in timers ==> h < nextTimer)
    }

    /** The first render with no project yet. */
    constructor ()
      ensures Valid()
      ensures messages == [] && !live && timers == {} && !confirmOpen
    {
      messages, draft, menuIndex, editingId, editText := [], "", None, "", "";
      confirmOpen, confirmId, previousProjectId := false, "", "";
      generation, live, pollRef, timers, nextTimer := 0, false, None, {}, 0;
    }

    /** The cleanup of the project effect: the run is cancelled and its
        interval cleared. */
    method Cleanup()
      requires Valid()
      modifies this
      ensures Valid()
      ensures !live && timers == {}
      ensures generation == old(generation) && messages == old(messages) && pollRef == old(pollRef)
      ensures menuIndex == old(menuIndex) && editingId == old(editingId) && editText == old(editText)
      ensures draft == old(draft) && confirmOpen == old(confirmOpen) && confirmId == old(confirmId)
      ensures previousProjectId == old(previousProjectId) && nextTimer == old(nextTimer)
    {
      if live {
        timers := timers - {pollRef.value};
      }
      live := false;
    }

    /** The `project` prop changed to `project` (`None` for null). The old
        run is cleaned up; for a project the list, the menu and the edit
        state are cleared, a load is issued and a new interval started. */
    method SwitchProject(project: Option<string>)
      requires Valid()
      modifies this
      ensures Valid()
      ensures draft == old(draft) && confirmOpen == old(confirmOpen) && confirmId == old(confirmId)
      ensures project.None? ==>
        !live && timers == {} && generation == old(generation) && messages == old(messages)
        && editingId == old(editingId) && previousProjectId == old(previousProjectId)
      ensures project.Some? ==>
        live && generation == old(generation) + 1 && |timers| == 1
        && messages == [] && menuIndex.None? && editingId == "" && editText == ""
        && previousProjectId == project.value
    {
      Cleanup();
      if project.None? {
        return;
      }
      generation := generation + 1;
      live := true;
      previousProjectId := project.value;
      messages, menuIndex, editingId, editText := [], None, "", "";
      pollRef := Some(nextTimer);
      timers := {nextTimer};
      nextTimer := nextTimer + 1;
    }

    /** The component unmounts. */
    method Unmount()
      requires Valid()
      modifies this
      ensures Valid()
      ensures !live && timers == {} && messages == old(messages)
    {
      Cleanup();
    }

    /** A `loadMessages` response issued by run `gen` (the first load or a
        poll tick): it replaces the list wholesale, unless that run has been
        cancelled or the request failed. */
    method LoadResponse(gen: nat, data: Option<seq<Message>>)
      requires Valid()
      modifies this
      ensures Valid()
      ensures gen == old(generation) && old(live) && data.Some? ==> messages == data.value
      ensures gen != old(generation) || !old(live) || data.None? ==> messages == old(messages)
      ensures generation == old(generation) && live == old(live) && timers == old(timers)
      ensures editingId == old(editingId) && confirmId == old(confirmId) && draft == old(draft)
    {
      var cancelled := gen != generation || !live;
      if !cancelled && data.Some? {
        messages := data.value;
      }
    }

    /** `send()`: blank drafts are not sent; a successful post (`posted`,
        `None` when the request throws) appends the server's message and
        clears the draft. */
    method Send(posted: Option<Message>)
      requires Valid()
      modifies this
      ensures Valid()
      ensures IsBlank(old(draft)) || posted.None? ==> messages == old(messages) && draft == old(draft)
      ensures !IsBlank(old(draft)) && posted.Some? ==> messages == old(messages) + [posted.value] && draft == ""
      ensures editingId == old(editingId) && confirmId == old(confirmId) && live == old(live) && timers == old(timers)
    {
      if IsBlank(draft) || posted.None? {
        return;
      }
      messages := messages + [posted.value];
      draft := "";
    }

    /** `startEdit(message)`. */
    method StartEdit(m: Message)
      requires Valid()
      modifies this
      ensures Valid()
      ensures editingId == m.id && editText == m.text && menuIndex.None?
      ensures messages == old(messages) && confirmId == old(confirmId) && live == old(live) && timers == old(timers)
    {
      editingId, editText, menuIndex := m.id, m.text, None;
    }

    /** `saveEdit()`: nothing happens for blank text or when no message is
        being edited; a successful put replaces the message carrying the
        returned id, in place, and closes the editor. */
    method SaveEdit(response: Response<Message>)
      requires Valid()
      modifies this
      ensures Valid()
      ensures IsBlank(old(editText)) || old(editingId) == "" || response.Failed? ==>
        messages == old(messages) && editingId == old(editingId) && editText == old(editText)
      ensures !IsBlank(old(editText)) && old(editingId) != "" && response.Answered? ==>
        editingId == "" && editText == ""
        && messages == (if response.data.Some?
                        then ReplaceWhere(old(messages), MessageId, response.data.value.id, response.data.value)
                        else old(messages))
      ensures |messages| == |old(messages)|
      ensures confirmId == old(confirmId) && draft == old(draft) && live == old(live) && timers == old(timers)
    {
      if IsBlank(editText) || editingId == "" {
        return;
      }
      if response.Failed? {
        return;
      }
      if response.data.Some? {
        var saved := response.data.value;
        messages := ReplaceWhere(messages, MessageId, saved.id, saved);
      }
      editingId, editText := "", "";
    }

    /** `confirmDelete(messageId)`. */
    method ConfirmDelete(messageId: string)
      requires Valid()
      modifies this
      ensures Valid()
      ensures confirmOpen && confirmId == messageId && menuIndex.None?
      ensures messages == old(messages) && editingId == old(editingId) && live == old(live) && timers == old(timers)
    {
      confirmOpen, confirmId, menuIndex := true, messageId, None;
    }

    /** `deleteMsg()`: without a pending id nothing happens; otherwise a
        successful delete removes the messages with that id, and the dialog
        state resets whether or not the delete succeeded. */
    method DeleteMsg(ok: bool)
      requires Valid()
      modifies this
      ensures Valid()
      ensures old(confirmId) == "" ==>
        messages == old(messages) && confirmOpen == old(confirmOpen) && confirmId == ""
      ensures old(confirmId) != "" ==>
        !confirmOpen && confirmId == ""
        && messages == (if ok then RemoveWhere(old(messages), MessageId, old(confirmId)) else old(messages))
      ensures editingId == old(editingId) && draft == old(draft) && live == old(live) && timers == old(timers)
    {
      if confirmId == "" {
        return;
      }
      if ok {
        messages := RemoveWhere(messages, MessageId, confirmId);
      }
      confirmOpen, confirmId := false, "";
    }
  }

  /** A load issued for one project that lands after a switch to another is
      discarded, and the new project's own load is applied. */
  method StaleLoadIsDiscarded(a: seq<Message>, b: seq<Message>) returns (afterStale: seq<Message>, shown: seq<Message>)
    ensures afterStale == [] && shown == b
  {
    var chat := new ChatPanel();
    chat.SwitchProject(Some("p1"));
    var first := chat.generation;
    chat.SwitchProject(Some("p2"));
    chat.LoadResponse(first, Some(a));
    afterStale := chat.messages;
    chat.LoadResponse(chat.generation, Some(b));
    assert chat.messages == b;
    chat.Unmount();
    chat.LoadResponse(chat.generation, Some(a));
    shown := chat.messages;
  }
}
