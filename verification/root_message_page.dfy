/**
 * The older chat screen at the repository root (message.jsx): load the
 * thread, send or edit through one send button, an edit icon beside every
 * driver message, and a list that is sorted again each time it is drawn.
 *
 * Unlike app/message.jsx, a successful edit also rewrites the message's
 * sender to "driver" and its timestamp to `now`, and there is no delete.
 */
module RootMessagePage {
  import opened Wrappers
  import opened ChatThread
  import Text

  /** `messages`, `message` (the input box) and `editingMessageId`. */
  datatype ChatState = ChatState(messages: seq<Message>, input: string, editingId: Option<string>)

  const Initial := ChatState([], "", None)

  datatype Request =
    | FetchThread(driverName: string)
    | PutContent(id: string, content: string)
    | PostMessage(driverName: string, sender: string, content: string)

  /** The server's answer: no usable response, a non-ok status with its text, or an ok body. */
  datatype Reply = NetworkError | NotOk(errorText: string) | Ok(data: ServerMessage)

  datatype LoadReply = LoadFailed | Loaded(serverMessages: seq<ServerMessage>)

  datatype Alert = Alert(title: string, body: string)

  datatype ChatStep = ChatStep(state: ChatState, request: Option<Request>, alert: Option<Alert>)

  /** `if (editingMessageId)`: an id string is truthy unless it is empty. */
  predicate Editing(st: ChatState) {
    st.editingId.Some? && st.editingId.value != ""
  }

  /** `fetchMessages`: on success the thread becomes the server's messages, formatted and sorted; on failure an alert. */
  function Load(st: ChatState, userName: string, reply: LoadReply): (r: ChatStep)
    ensures r.request == Some(FetchThread(userName))
    ensures reply.LoadFailed? ==> r.state == st && r.alert == Some(Alert("Error", "Unable to load messages"))
    ensures reply.Loaded? ==>
      && r.alert.None?
      && |r.state.messages| == |reply.serverMessages|
      && SortedByTime(r.state.messages)
      && multiset(r.state.messages) == multiset(FormatAll(reply.serverMessages))
      && r.state.input == st.input && r.state.editingId == st.editingId
  {
    match reply
    case LoadFailed => ChatStep(st, Some(FetchThread(userName)), Some(Alert("Error", "Unable to load messages")))
    case Loaded(ms) => ChatStep(st.(messages := LoadThread(ms)), Some(FetchThread(userName)), None)
  }

  /**
   * `sendMessage`. A blank input is refused before any request. In edit mode
   * the text is PUT and, on success, the matching message is rewritten as a
   * driver message with the new text, stamped `now`. Otherwise the text is
   * POSTed and, on success, the server's message is appended. A failed
   * request shows an alert and changes nothing.
   */
  function Send(st: ChatState, userName: string, reply: Reply, now: int): (r: ChatStep)
    ensures IsBlank(st.input) ==>
      r == ChatStep(st, None, Some(Alert("Validation", "Please write a message")))
    ensures !IsBlank(st.input) && Editing(st) ==> r.request == Some(PutContent(st.editingId.value, st.input))
    ensures !IsBlank(st.input) && !Editing(st) ==> r.request == Some(PostMessage(userName, DriverSender, st.input))
    ensures !reply.Ok? ==> r.state == st && r.alert.Some?
    ensures reply.NotOk? && !IsBlank(st.input) ==> r.alert == Some(Alert("Error", reply.errorText))
    // A successful edit: same length; the matching message is rewritten, every other one is untouched.
    ensures reply.Ok? && !IsBlank(st.input) && Editing(st) ==>
      && r.alert.None?
      && |r.state.messages| == |st.messages|
      && (forall i :: 0 <= i < |st.messages| && st.messages[i].id != st.editingId.value ==>
            r.state.messages[i] == st.messages[i])
      && (forall i :: 0 <= i < |st.messages| && st.messages[i].id == st.editingId.value ==>
            && r.state.messages[i].id == st.messages[i].id
            && r.state.messages[i].text == st.input
            && r.state.messages[i].sender == DriverSender
            && r.state.messages[i].createdAt == now)
      && r.state.input == "" && r.state.editingId.None?
    // A successful send: exactly one driver message appended after an untouched prefix.
    ensures reply.Ok? && !IsBlank(st.input) && !Editing(st) ==>
      && r.alert.None?
      && |r.state.messages| == |st.messages| + 1
      && r.state.messages[..|st.messages|] == st.messages
      && r.state.messages[|st.messages|] ==
           Message(Text.NatToString(reply.data.id), reply.data.content, DriverSender, now)
      && r.state.input == "" && r.state.editingId == st.editingId
  {
    if IsBlank(st.input) then
      ChatStep(st, None, Some(Alert("Validation", "Please write a message")))
    else if Editing(st) then
      var id := st.editingId.value;
      var req := Some(PutContent(id, st.input));
      match reply
      case NetworkError => ChatStep(st, req, Some(Alert("Error", "Failed to update message")))
      case NotOk(text) => ChatStep(st, req, Some(Alert("Error", text)))
      case Ok(_) =>
        ChatStep(st.(messages := RestampWhere(st.messages, id, st.input, now), input := "", editingId := None), req, None)
    else
      var req := Some(PostMessage(userName, DriverSender, st.input));
      match reply
      case NetworkError => ChatStep(st, req, Some(Alert("Error", "Failed to send message")))
      case NotOk(text) => ChatStep(st, req, Some(Alert("Error", text)))
      case Ok(data) =>
        var sent := Message(Text.NatToString(data.id), data.content, DriverSender, now);
        ChatStep(st.(messages := st.messages + [sent], input := ""), req, None)
  }

  /** Only driver messages carry the edit icon. */
  predicate HasEditIcon(m: Message) {
    m.sender == DriverSender
  }

  /** Tapping the edit icon of `m`: edit mode on `m` with its text in the input box. */
  function TapEdit(st: ChatState, m: Message): (r: ChatState)
    ensures !HasEditIcon(m) ==> r == st
    ensures HasEditIcon(m) ==> r.editingId == Some(m.id) && r.input == m.text && r.messages == st.messages
  {
    if HasEditIcon(m) then st.(editingId := Some(m.id), input := m.text) else st
  }

  /** The list handed to the FlatList: `messages.sort(...)` by ascending `createdAt`. */
  function Displayed(st: ChatState): (r: seq<Message>)
    ensures SortedByTime(r)
    ensures multiset(r) == multiset(st.messages)
    ensures SortedByTime(st.messages) ==> r == st.messages
  {
    SortSortedIsIdentity(st.messages);
    SortByTime(st.messages)
  }

  /**
   * Drawing the screen. `Array.prototype.sort` works in place on the state's
   * own array, so after a draw the stored thread is the drawn one, and the
   * next handler starts from that order.
   */
  function Render(st: ChatState): (r: ChatState)
    ensures SortedByTime(r.messages)
    ensures multiset(r.messages) == multiset(st.messages)
    ensures r.input == st.input && r.editingId == st.editingId
    ensures SortedByTime(st.messages) ==> r == st
  {
    st.(messages := Displayed(st))
  }

  /** Drawing again after drawing changes nothing, and what is drawn is what is stored. */
  lemma RedrawStable(st: ChatState)
    ensures Render(Render(st)) == Render(st)
    ensures Displayed(Render(st)) == Render(st).messages
  {
  }

  /** One user action on the screen, with what the server or the clock answers. */
  datatype Event =
    | Open(userName: string, loadReply: LoadReply)
    | Type(text: string)
    | PressSend(userName: string, reply: Reply, now: int)
    | PressEdit(message: Message)

  /** The state after one event's handler, followed by the draw it triggers. */
  function Step(st: ChatState, e: Event): (r: ChatState)
    ensures SortedByTime(r.messages)
    ensures Displayed(r) == r.messages
    ensures e.Type? ==> r.input == e.text && r.editingId == st.editingId
    ensures e.Type? ==> r == Render(st.(input := e.text))
    ensures e.Open? ==> r == Render(Load(st, e.userName, e.loadReply).state)
    ensures e.PressSend? ==> r == Render(Send(st, e.userName, e.reply, e.now).state)
    ensures e.PressEdit? ==> r == Render(TapEdit(st, e.message))
  {
    var next := match e
      case Open(u, reply) => Load(st, u, reply).state
      case Type(text) => st.(input := text)
      case PressSend(u, reply, now) => Send(st, u, reply, now).state
      case PressEdit(m) => TapEdit(st, m);
    Render(next)
  }

  /** The state after a sequence of events, in order. */
  function Run(st: ChatState, events: seq<Event>): ChatState
    decreases |events|
  {
    if events == [] then st else Run(Step(st, events[0]), events[1..])
  }

  /**
   * From a time-ordered thread (the empty one on opening, say), whatever the
   * user does, the stored thread stays time-ordered and is exactly what is drawn.
   */
  lemma {:induction false} RunDrawsStored(st: ChatState, events: seq<Event>)
    requires SortedByTime(st.messages)
    ensures SortedByTime(Run(st, events).messages)
    ensures Displayed(Run(st, events)) == Run(st, events).messages
    decreases |events|
  {
    if events != [] {
      RunDrawsStored(Step(st, events[0]), events[1..]);
    }
  }

  /** A successful edit step stores the re-stamped thread, drawn in time order. */
  lemma EditStepMessages(st: ChatState, userName: string, reply: Reply, now: int)
    requires Editing(st) && !IsBlank(st.input) && reply.Ok?
    ensures Step(st, PressSend(userName, reply, now)).messages
         == SortByTime(RestampWhere(st.messages, st.editingId.value, st.input, now))
  {
    var sent := Send(st, userName, reply, now);
    assert sent.state.messages == RestampWhere(st.messages, st.editingId.value, st.input, now);
    assert Step(st, PressSend(userName, reply, now)) == Render(sent.state);
  }

  /** Every message with another id is strictly older than `now`. */
  predicate OthersOlder(s: seq<Message>, id: string, now: int) {
    forall i :: 0 <= i < |s| && s[i].id != id ==> s[i].createdAt < now
  }

  /** Sorting a re-stamped thread whose other messages are no later than `now` ends at `now`. */
  lemma RestampSortedEndsAtNow(s: seq<Message>, id: string, text: string, now: int, k: nat)
    requires k < |s| && s[k].id == id
    requires forall i :: 0 <= i < |s| && s[i].id != id ==> s[i].createdAt <= now
    ensures var shown := SortByTime(RestampWhere(s, id, text, now));
      |shown| == |s| && shown[|shown| - 1].createdAt == now
  {
    var after := RestampWhere(s, id, text, now);
    assert AllAtOrBefore(after, now) by {
      forall i | 0 <= i < |after|
        ensures after[i].createdAt <= now
      {
        if s[i].id != id {
          assert after[i] == s[i];
        }
      }
    }
    var shown := SortByTime(after);
    PermutationKeepsBound(after, shown, now);
    assert after[k] in multiset(shown);
    var j :| 0 <= j < |shown| && shown[j] == after[k];
    SortedEndsAtBound(shown, now, j);
  }

  /** When everything not re-stamped is strictly older, a message of the re-stamped thread stamped `now` is a re-stamped one. */
  lemma StampedNowIsRestamped(s: seq<Message>, id: string, text: string, now: int, m: Message)
    requires OthersOlder(s, id, now)
    requires m in multiset(RestampWhere(s, id, text, now)) && m.createdAt == now
    ensures m == Message(id, text, DriverSender, now)
  {
    var after := RestampWhere(s, id, text, now);
    assert m in after;
    var i :| 0 <= i < |after| && after[i] == m;
  }

  /** When everything not re-stamped is strictly older, the last sorted message is a re-stamped one. */
  lemma RestampSortedLast(s: seq<Message>, id: string, text: string, now: int, k: nat)
    requires k < |s| && s[k].id == id
    requires OthersOlder(s, id, now)
    ensures var shown := SortByTime(RestampWhere(s, id, text, now));
      |shown| == |s| && shown[|shown| - 1] == Message(id, text, DriverSender, now)
  {
    RestampSortedEndsAtNow(s, id, text, now, k);
    var shown := SortByTime(RestampWhere(s, id, text, now));
    assert shown[|shown| - 1] in multiset(shown);
    StampedNowIsRestamped(s, id, text, now, shown[|shown| - 1]);
  }

  /**
   * After an edit stamped no earlier than every other message, the drawn list
   * ends with a message stamped at the edit time (with ties, another message
   * stamped at that same time may be the last one).
   */
  lemma EditStampDrawnLast(st: ChatState, k: nat, userName: string, reply: Reply, now: int)
    requires k < |st.messages| && Editing(st) && st.editingId.value == st.messages[k].id
    requires !IsBlank(st.input) && reply.Ok?
    requires forall i :: 0 <= i < |st.messages| && st.messages[i].id != st.editingId.value ==>
      st.messages[i].createdAt <= now
    ensures var shown := Step(st, PressSend(userName, reply, now)).messages;
      |shown| == |st.messages| && shown[|shown| - 1].createdAt == now
  {
    EditStepMessages(st, userName, reply, now);
    RestampSortedEndsAtNow(st.messages, st.editingId.value, st.input, now, k);
  }

  /**
   * When every other message is strictly older than the edit time, the last
   * message drawn after the edit is the edited one: its id, the new text,
   * the driver as sender, and the edit time.
   */
  lemma EditedMessageDrawnLast(st: ChatState, k: nat, userName: string, reply: Reply, now: int)
    requires k < |st.messages| && Editing(st) && st.editingId.value == st.messages[k].id
    requires !IsBlank(st.input) && reply.Ok?
    requires OthersOlder(st.messages, st.editingId.value, now)
    ensures var shown := Step(st, PressSend(userName, reply, now)).messages;
      && |shown| == |st.messages|
      && shown[|shown| - 1] == Message(st.messages[k].id, st.input, DriverSender, now)
  {
    var id := st.editingId.value;
    var shown := Step(st, PressSend(userName, reply, now)).messages;
    var sorted := SortByTime(RestampWhere(st.messages, id, st.input, now));
    assert shown == sorted by {
      EditStepMessages(st, userName, reply, now);
    }
    assert |sorted| == |st.messages| && sorted[|sorted| - 1] == Message(id, st.input, DriverSender, now) by {
      RestampSortedLast(st.messages, id, st.input, now, k);
    }
  }
}
