/**
 * The driver's chat screen under app/ (app/message.jsx): load the thread,
 * send or edit through one send button, delete through a per-message menu.
 *
 * Each handler is one atomic step taking the server's answer as a parameter
 * and reporting the request it sent and the alert it showed. `now` is the
 * client clock that `new Date().toISOString()` reads, as an integer.
 */
module AppMessagePage {
  import opened Wrappers
  import opened ChatThread
  import Text

  /** `messages`, `message` (the input box), `editingMessageId` and `menuVisibleId`. */
  datatype ChatState = ChatState(
    messages: seq<Message>,
    input: string,
    editingId: Option<string>,
    menuId: Option<string>)

  const Initial := ChatState([], "", None, None)

  /** The requests the screen sends to the message API. */
  datatype Request =
    | FetchThread(driverName: string)
    | PutContent(id: string, content: string)
    | PostMessage(driverName: string, sender: string, content: string)
    | DeleteMessage(id: string)

  /** The server's answer: no usable response, a non-ok status with its text, or an ok body. */
  datatype Reply = NetworkError | NotOk(errorText: string) | Ok(data: ServerMessage)

  /** The answer to the thread request. */
  datatype LoadReply = LoadFailed | Loaded(serverMessages: seq<ServerMessage>)

  datatype Alert = Alert(title: string, body: string)

  /** One handler run: the new state, the request sent (if any) and the alert shown (if any). */
  datatype ChatStep = ChatStep(state: ChatState, request: Option<Request>, alert: Option<Alert>)

  /** `if (editingMessageId)`: an id string is truthy unless it is empty. */
  predicate Editing(st: ChatState) {
    st.editingId.Some? && st.editingId.value != ""
  }

  /** `fetchMessages`: on success the thread becomes the server's messages, formatted and sorted; on failure an alert. */
  function Load(st: ChatState, userName: string, reply: LoadReply): (r: ChatStep)
    ensures r.request == Some(FetchThread(userName))
    ensures reply.LoadFailed? ==> r.state == st && r.alert == Some(Alert("Error", "Unable to load messages"))
    ensures reply.Loaded? ==>
      && r.alert.None?
      && |r.state.messages| == |reply.serverMessages|
      && SortedByTime(r.state.messages)
      && multiset(r.state.messages) == multiset(FormatAll(reply.serverMessages))
      && r.state.input == st.input && r.state.editingId == st.editingId && r.state.menuId == st.menuId
  {
    match reply
    case LoadFailed => ChatStep(st, Some(FetchThread(userName)), Some(Alert("Error", "Unable to load messages")))
    case Loaded(ms) => ChatStep(st.(messages := LoadThread(ms)), Some(FetchThread(userName)), None)
  }

  /**
   * `sendMessage`. A blank input is refused before any request. In edit mode
   * the text is PUT for the edited id and, on success, written into that
   * message only; otherwise the text is POSTed and, on success, the server's
   * message is appended as a driver message stamped `now`. A failed request
   * shows an alert and changes nothing.
   */
  function Send(st: ChatState, userName: string, reply: Reply, now: int): (r: ChatStep)
    // The blank guard.
    ensures IsBlank(st.input) ==>
      r == ChatStep(st, None, Some(Alert("Validation", "Please write a message")))
    // The request sent, untrimmed.
    ensures !IsBlank(st.input) && Editing(st) ==> r.request == Some(PutContent(st.editingId.value, st.input))
    ensures !IsBlank(st.input) && !Editing(st) ==> r.request == Some(PostMessage(userName, DriverSender, st.input))
    // Failures leave the state alone.
    ensures !reply.Ok? ==> r.state == st && r.alert.Some?
    ensures reply.NotOk? && !IsBlank(st.input) ==> r.alert == Some(Alert("Error", reply.errorText))
    // A successful edit: same length, only the edited message's text changes, edit mode ends.
    ensures reply.Ok? && !IsBlank(st.input) && Editing(st) ==>
      && r.alert.None?
      && |r.state.messages| == |st.messages|
      && (forall i :: 0 <= i < |st.messages| && st.messages[i].id != st.editingId.value ==>
            r.state.messages[i] == st.messages[i])
      && (forall i :: 0 <= i < |st.messages| && st.messages[i].id == st.editingId.value ==>
            r.state.messages[i] == st.messages[i].(text := st.input))
      && r.state.input == "" && r.state.editingId.None? && r.state.menuId == st.menuId
    // A successful send: exactly one driver message appended after an untouched prefix.
    ensures reply.Ok? && !IsBlank(st.input) && !Editing(st) ==>
      && r.alert.None?
      && |r.state.messages| == |st.messages| + 1
      && r.state.messages[..|st.messages|] == st.messages
      && r.state.messages[|st.messages|] ==
           Message(Text.NatToString(reply.data.id), reply.data.content, DriverSender, now)
      && r.state.input == "" && r.state.editingId == st.editingId && r.state.menuId == st.menuId
  {
    if IsBlank(st.input) then
      ChatStep(st, None, Some(Alert("Validation", "Please write a message")))
    else if Editing(st) then
      var id := st.editingId.value;
      var req := Some(PutContent(id, st.input));
      match reply
      case NetworkError => ChatStep(st, req, Some(Alert("Error", "Failed to update message")))
      case NotOk(text) => ChatStep(st, req, Some(Alert("Error", text)))
      case Ok(_) =>
        ChatStep(st.(messages := SetTextWhere(st.messages, id, st.input), input := "", editingId := None), req, None)
    else
      var req := Some(PostMessage(userName, DriverSender, st.input));
      match reply
      case NetworkError => ChatStep(st, req, Some(Alert("Error", "Failed to send message")))
      case NotOk(text) => ChatStep(st, req, Some(Alert("Error", text)))
      case Ok(data) =>
        var sent := Message(Text.NatToString(data.id), data.content, DriverSender, now);
        ChatStep(st.(messages := st.messages + [sent], input := ""), req, None)
  }

  /**
   * `deleteMessage` after the confirmation dialog: "Cancel" does nothing;
   * "Delete" sends the request and, on success, drops every message with that
   * id and closes the menu; a failure shows an alert and changes nothing.
   */
  function Delete(st: ChatState, id: string, confirmed: bool, reply: Reply): (r: ChatStep)
    ensures !confirmed ==> r == ChatStep(st, None, None)
    ensures confirmed ==> r.request == Some(DeleteMessage(id))
    ensures confirmed && !reply.Ok? ==> r.state == st && r.alert.Some?
    ensures confirmed && reply.Ok? ==>
      && r.alert.None?
      && (forall i :: 0 <= i < |r.state.messages| ==> r.state.messages[i].id != id)
      && (forall m: Message :: m.id != id ==> multiset(r.state.messages)[m] == multiset(st.messages)[m])
      && r.state.messages == RemoveWhere(st.messages, id)
      && r.state.menuId.None?
      && r.state.input == st.input && r.state.editingId == st.editingId
  {
    if !confirmed then ChatStep(st, None, None)
    else
      var req := Some(DeleteMessage(id));
      match reply
      case NetworkError => ChatStep(st, req, Some(Alert("Error", "Failed to delete message")))
      case NotOk(text) => ChatStep(st, req, Some(Alert("Error", text)))
      case Ok(_) =>
        assert forall m: Message :: m.id != id ==> multiset(RemoveWhere(st.messages, id))[m] == multiset(st.messages)[m] by {
          forall m: Message | m.id != id
            ensures multiset(RemoveWhere(st.messages, id))[m] == multiset(st.messages)[m]
          {
            RemoveCounts(st.messages, id, m);
          }
        }
        ChatStep(st.(messages := RemoveWhere(st.messages, id), menuId := None), req, None)
  }

  /** `menuVisibleId === id ? null : id`: the open menu closes, any other id opens. */
  function ToggleId(open: Option<string>, id: string): (r: Option<string>)
    ensures r.None? <==> open == Some(id)
    ensures r.Some? ==> r.value == id
  {
    if open == Some(id) then None else Some(id)
  }

  /** Toggling the same message twice restores the menu when it was closed or open on that message. */
  lemma ToggleTwice(open: Option<string>, id: string)
    requires open.None? || open == Some(id)
    ensures ToggleId(ToggleId(open, id), id) == open
  {
  }

  /** The three-dot button exists only on driver messages. */
  predicate HasMenuButton(m: Message) {
    m.sender == DriverSender
  }

  /** The Edit/Delete menu is drawn under a message exactly when that message has the button and its id is open. */
  predicate MenuShownFor(st: ChatState, m: Message) {
    HasMenuButton(m) && st.menuId == Some(m.id)
  }

  /** Tapping the three-dot button of `m`; messages of other senders have no button. */
  function TapMenu(st: ChatState, m: Message): (r: ChatState)
    ensures !HasMenuButton(m) ==> r == st
    ensures HasMenuButton(m) ==> (MenuShownFor(r, m) <==> !MenuShownFor(st, m))
    ensures r.messages == st.messages && r.input == st.input && r.editingId == st.editingId
  {
    if HasMenuButton(m) then st.(menuId := ToggleId(st.menuId, m.id)) else st
  }

  /** Choosing "Edit" in the menu of `m`: edit mode on `m`, its text in the input box, the menu closed. */
  function ChooseEdit(st: ChatState, m: Message): (r: ChatState)
    ensures !MenuShownFor(st, m) ==> r == st
    ensures MenuShownFor(st, m) ==>
      r.editingId == Some(m.id) && r.input == m.text && r.menuId.None? && r.messages == st.messages
  {
    if MenuShownFor(st, m) then st.(editingId := Some(m.id), input := m.text, menuId := None) else st
  }

  /** Only a driver message can be put into edit mode. */
  lemma OnlyDriverMessagesEditable(st: ChatState, m: Message)
    requires ChooseEdit(st, m) != st
    ensures m.sender == DriverSender
  {
  }

  /**
   * Opening the editor on a message of the thread and sending its text
   * unchanged leaves the thread as it was (ids being distinct).
   */
  lemma UnchangedEditIsNoOp(st: ChatState, k: nat, userName: string, reply: Reply, now: int)
    requires DistinctIds(st.messages)
    requires k < |st.messages|
    requires MenuShownFor(st, st.messages[k])
    requires st.messages[k].id != "" && !IsBlank(st.messages[k].text)
    requires reply.Ok?
    ensures Send(ChooseEdit(st, st.messages[k]), userName, reply, now).state.messages == st.messages
  {
    var m := st.messages[k];
    var r := Send(ChooseEdit(st, m), userName, reply, now).state.messages;
    forall i | 0 <= i < |st.messages|
      ensures r[i] == st.messages[i]
    {
      if st.messages[i].id == m.id {
        assert i == k;
      }
    }
  }

  /** Every handler keeps the thread sorted, provided the clock has not gone back. */
  lemma HandlersKeepThreadSorted(st: ChatState, userName: string, id: string, confirmed: bool, reply: Reply, now: int)
    requires SortedByTime(st.messages)
    requires AllAtOrBefore(st.messages, now)
    ensures SortedByTime(Send(st, userName, reply, now).state.messages)
    ensures SortedByTime(Delete(st, id, confirmed, reply).state.messages)
  {
    SendKeepsSorted(st, userName, reply, now);
    if confirmed && reply.Ok? {
      RemoveKeepsSorted(st.messages, id);
    }
  }

  lemma SendKeepsSorted(st: ChatState, userName: string, reply: Reply, now: int)
    requires SortedByTime(st.messages)
    requires AllAtOrBefore(st.messages, now)
    ensures SortedByTime(Send(st, userName, reply, now).state.messages)
  {
    if reply.Ok? && !IsBlank(st.input) {
      if Editing(st) {
        SetTextKeepsOrderAndIds(st.messages, st.editingId.value, st.input);
        assert Send(st, userName, reply, now).state.messages == SetTextWhere(st.messages, st.editingId.value, st.input);
      } else {
        var sent := Message(Text.NatToString(reply.data.id), reply.data.content, DriverSender, now);
        AppendLatestKeepsSorted(st.messages, sent);
        assert Send(st, userName, reply, now).state.messages == st.messages + [sent];
      }
    }
  }
}
