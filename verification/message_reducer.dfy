/**
  The client's message state: two reducers, `chatReducer` (the open
  conversation) and `allMessagesReducer` (the conversation list), combined
  into one state object.
*/
module MessageReducer {
  import opened Messages

  /** A reducer's incoming state: `None` when the store has no state yet and
      the reducer's default applies. */
  datatype Option<T> = None | Some(value: T)

  /** One element of the conversation list. */
  datatype Summary = Summary(
    companyName: string,
    firstName: string,
    lastName: string,
    otherUserId: int,
    userId: int,
    messageDate: string,
    message: string,
    profilePic: string)

  datatype Action =
    | SetAllMessages(all: seq<Summary>)
    | SetMessages(chat: seq<ChatEntry>)
    | AddMessageToChat(entry: ChatEntry)
    | Other(actionType: string)

  /** The action types the reducers handle. */
  predicate Handled(actionType: string)
  {
    actionType == "SET_ALL_MESSAGES" || actionType == "SET_MESSAGES" || actionType == "ADD_MESSAGE_TO_CHAT"
  }

  /** A dispatched action: one that carries a handled type always carries
      its payload, so `Other` never names a handled type. */
  type ReduxAction = a: Action | !(a.Other? && Handled(a.actionType)) witness Other("@@redux/INIT")

  const DefaultSummaries: seq<Summary> := [Summary("", "", "", 0, 0, "", "", "")]

  const DefaultChat: seq<ChatEntry> := [ChatEntry(0, 0, "", "")]

  function StateOr<T>(state: Option<T>, default: T): T
  {
    if state.Some? then state.value else default
  }

  /** `allMessagesReducer`: `SET_ALL_MESSAGES` replaces the list; anything
      else keeps it. */
  function AllMessagesReducer(state: Option<seq<Summary>>, a: ReduxAction): (r: seq<Summary>)
    ensures a.SetAllMessages? ==> r == a.all
    ensures !a.SetAllMessages? ==> r == StateOr(state, DefaultSummaries)
  {
    match a
    case SetAllMessages(all) => all
    case _ => StateOr(state, DefaultSummaries)
  }

  /** `chatReducer`: `ADD_MESSAGE_TO_CHAT` appends its payload,
      `SET_MESSAGES` replaces the conversation, anything else keeps it. */
  function ChatReducer(state: Option<seq<ChatEntry>>, a: ReduxAction): (r: seq<ChatEntry>)
    ensures a.AddMessageToChat? ==>
              |r| == |StateOr(state, DefaultChat)| + 1
              && r[..|r| - 1] == StateOr(state, DefaultChat)
              && r[|r| - 1] == a.entry
    ensures a.SetMessages? ==> r == a.chat
    ensures a.SetAllMessages? || a.Other? ==> r == StateOr(state, DefaultChat)
  {
    var s := StateOr(state, DefaultChat);
    match a
    case AddMessageToChat(entry) => s + [entry]
    case SetMessages(chat) => chat
    case _ => s
  }

  /** The combined state, one field per reducer. */
  datatype RootState = RootState(chatReducer: seq<ChatEntry>, allMessagesReducer: seq<Summary>)

  /** `combineReducers({ chatReducer, allMessagesReducer })`: every action
      goes to both reducers, each with its own slice. */
  function RootReducer(state: Option<RootState>, a: ReduxAction): (r: RootState)
    ensures a.SetAllMessages? && state.Some? ==> r.chatReducer == state.value.chatReducer
    ensures (a.SetMessages? || a.AddMessageToChat?) && state.Some? ==>
              r.allMessagesReducer == state.value.allMessagesReducer
    ensures a.Other? && state.Some? ==> r == state.value
  {
    var chat := if state.Some? then Some(state.value.chatReducer) else None;
    var all := if state.Some? then Some(state.value.allMessagesReducer) else None;
    RootState(ChatReducer(chat, a), AllMessagesReducer(all, a))
  }

  /** The store's first state: both reducers' defaults. */
  lemma InitialState(a: ReduxAction)
    requires a.Other?
    ensures var r := RootReducer(None, a);
            && |r.allMessagesReducer| == 1
            && r.allMessagesReducer[0].otherUserId == 0 && r.allMessagesReducer[0].userId == 0
            && r.allMessagesReducer[0].companyName == "" && r.allMessagesReducer[0].firstName == ""
            && r.allMessagesReducer[0].lastName == "" && r.allMessagesReducer[0].messageDate == ""
            && r.allMessagesReducer[0].message == "" && r.allMessagesReducer[0].profilePic == ""
            && |r.chatReducer| == 1
            && r.chatReducer[0].toUser == 0 && r.chatReducer[0].fromUser == 0
            && r.chatReducer[0].dateReceived == "" && r.chatReducer[0].message == ""
  {
  }

  /** `SET_MESSAGES` and `SET_ALL_MESSAGES` are idempotent. */
  lemma SetTwiceIsSetOnce(state: RootState, a: ReduxAction)
    requires a.SetMessages? || a.SetAllMessages?
    ensures RootReducer(Some(RootReducer(Some(state), a)), a) == RootReducer(Some(state), a)
  {
  }

  /** Dispatches `actions` in order. */
  function Replay(state: RootState, actions: seq<ReduxAction>): RootState
    decreases |actions|
  {
    if |actions| == 0 then state
    else Replay(RootReducer(Some(state), actions[0]), actions[1..])
  }

  predicate AllAdds(actions: seq<ReduxAction>)
  {
    forall i :: 0 <= i < |actions| ==> actions[i].AddMessageToChat?
  }

  /** The payloads of a run of `ADD_MESSAGE_TO_CHAT` actions. */
  function Added(actions: seq<ReduxAction>): seq<ChatEntry>
    requires AllAdds(actions)
    decreases |actions|
  {
    if |actions| == 0 then [] else [actions[0].entry] + Added(actions[1..])
  }

  /** A run of `ADD_MESSAGE_TO_CHAT` actions appends its payloads to the chat,
      in dispatch order, and leaves the conversation list alone. */
  lemma {:induction false} AddsAppend(state: RootState, actions: seq<ReduxAction>)
    requires AllAdds(actions)
    ensures Replay(state, actions).chatReducer == state.chatReducer + Added(actions)
    ensures Replay(state, actions).allMessagesReducer == state.allMessagesReducer
    decreases |actions|
  {
    if |actions| > 0 {
      var next := RootReducer(Some(state), actions[0]);
      AddsAppend(next, actions[1..]);
      assert state.chatReducer + Added(actions)
             == (state.chatReducer + [actions[0].entry]) + Added(actions[1..]);
    }
  }

  /** Opening a conversation and then receiving messages: the chat is the
      fetched thread followed by the new messages. */
  lemma SetThenAdds(state: RootState, thread: seq<ChatEntry>, actions: seq<ReduxAction>)
    requires AllAdds(actions)
    ensures Replay(state, [SetMessages(thread)] + actions).chatReducer == thread + Added(actions)
    ensures Replay(state, [SetMessages(thread)] + actions).allMessagesReducer == state.allMessagesReducer
  {
    var first: ReduxAction := SetMessages(thread);
    var acts := [first] + actions;
    assert acts[1..] == actions;
    AddsAppend(RootReducer(Some(state), SetMessages(thread)), actions);
  }
}
