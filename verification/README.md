# Messaging core of the planner/vendor marketplace, in Dafny

This project models the messaging part of an event-planning marketplace.
Planners (event organisers) and vendors (service providers) exchange
timestamped text messages. The server keeps them in a `messages` table and
answers four routes. The client keeps the open conversation and the
conversation list in two Redux reducers.

The model covers:

- the `messages` table as an append-only log of
  `Message(fromUser, toUser, date, message)`, with the single and bulk
  inserts (`MessageStore`);
- the thread query `GET /api/message/:id`: every message between two users,
  oldest first (`ThreadQuery`);
- the planner branch of `GET /api/message/all`: a join with `users` and
  `vendors`, `ORDER BY` the conversation key and date, then `DISTINCT ON` the
  key (`PlannerInbox`);
- the vendor branch of `GET /api/message/all`: the distinct counterparts of
  the viewer, then, for each of them, one message picked by
  `ORDER BY "dateReceived" DESC LIMIT 1` (`VendorInbox`);
- the dispatch between the two branches on the user's type (`MessageRouter`);
- `chatReducer`, `allMessagesReducer` and their `combineReducers`
  composition (`MessageReducer`).

Modules that support the queries:

- `Lex` is the lexicographic order on integer sequences. It serves both as
  the order of a multi-column `ORDER BY` and as text order on character codes.
- `OrderBy` is a stable sort by such a rank.
- `Seqs` holds filtering (`WHERE`) and duplicate removal (`DISTINCT`).

`to_char(date, 'DD MON YYYY HH:MI AM')` is a parameter `fmt: int -> string`.
Every property about it holds for every formatting function.

Where the database leaves an order open, the model fixes one order and
proves the properties for it. Examples are rows with equal sort keys and the
order of `DISTINCT` rows. The properties of the planner list need only
sortedness, so they hold whichever tie order the database picks.

The behaviour is modelled as the code writes it, including three places where
the code itself points to a different intent:

- The planner query keeps each conversation's earliest message, although it
  names the date column `maxDate`. The vendor query ranks messages by their
  formatted date text, although the comment before it asks for the most
  recent message. Both are under Findings.
- The planner query puts the larger of the two ids in `otherUserId`, and that
  can be the viewer's own id; `PlannerInbox.OtherUserIdCanBeViewer` shows a
  case.
- Neither query breaks ties between messages with equal dates, and the
  planner list comes back ordered by conversation key, not by time.

## Model

| member | source | states |
|---|---|---|
| Messages.ConversationKey | server/routes/message.router.js:19-21 | the key's first part is the larger participant and its second the smaller; together they are the two participants |
| Messages.SameKeyIffSamePair | server/routes/message.router.js:18-21 | two messages get the same `(GREATEST, LEAST)` key exactly when they have the same two participants, in either direction |
| Messages.BetweenIffKey | server/routes/message.router.js:154-156 | a message is between `a` and `b`, either way, exactly when its key is the key of `a` and `b` |
| MessageStore.Post | server/routes/message.router.js:173-187 | a single insert adds one row built from `fromUser`, `toUser`, `date` and `message` after the existing rows, which stay as they were |
| MessageStore.PostEach | server/routes/message.router.js:209-218 | inserts issued one after another leave the log followed by the items, in order |
| MessageStore.PostBulk | server/routes/message.router.js:200-219 | a successful bulk insert keeps the old rows as a prefix and adds exactly the batch, in whatever order the parallel inserts landed; every batch item ends up in the log |
| OrderBy.SortBy | server/routes/message.router.js:157 | `ORDER BY`: the result is a rearrangement of the input, and its ranks never decrease |
| ThreadQuery.ThreadMessages | server/routes/message.router.js:151-157 | the thread holds each message between the two users, sent either way, exactly as often as the log does, and no other message; dates never decrease |
| ThreadQuery.Thread | server/routes/message.router.js:151-157 | the returned rows are the thread's messages in its date order, one row per message, each carrying that message's sender, recipient and body and its formatted date |
| ThreadQuery.ThreadSymmetric | server/routes/message.router.js:154-156 | asking for the thread from either side gives the same messages |
| ThreadQuery.ThreadMembers | server/routes/message.router.js:154-156 | a message is in the thread exactly when it is in the log and between the two users |
| ThreadQuery.PostUpdatesThreads | server/routes/message.router.js:174-179 | after a single insert the thread of its two participants gains exactly the new message, and every other thread is unchanged |
| PlannerInbox.RowOfMessage | server/routes/message.router.js:20-23 | a row drawn from a message carries the message's key, date and body, and its `otherUserId` is at least its `userId` |
| PlannerInbox.MessageRows | server/routes/message.router.js:29-32 | the join gives a message one row for each participant with both a `users` and a `vendors` row |
| PlannerInbox.JoinedRowsMembers | server/routes/message.router.js:28-34 | a joined row comes from a message the viewer sent or received, and every such message's rows are there |
| PlannerInbox.SortedRows | server/routes/message.router.js:35 | rows sorted by the rank are ordered by key and, within a key, by date |
| PlannerInbox.DistinctOnMembers | server/routes/message.router.js:18-19 | `DISTINCT ON` keeps exactly the rows that start a run of equal keys |
| PlannerInbox.DistinctOnAscending | server/routes/message.router.js:18-19 | after the sort, `DISTINCT ON` leaves at most one row per key, with keys strictly ascending |
| PlannerInbox.PlannerInbox | server/routes/message.router.js:17-35 | one row per conversation, each drawn from a message the viewer sent or received where a participant is a vendor; every such conversation appears; `maxDate` is at most every date of the conversation |
| PlannerInbox.ViewerInEveryRow | server/routes/message.router.js:20-21 | in every row `otherUserId` is at least `userId`, and one of them is the viewer |
| PlannerInbox.PlannerShowsEarliest | server/routes/message.router.js:22 | of two messages in one conversation, the row shows the earlier message and its date |
| PlannerInbox.PlannerInboxLatest | server/routes/message.router.js:17-35 | the corrected query: the same rows and keys, with `maxDate` at least every date of the conversation |
| PlannerInbox.LatestShowsLastMessage | server/routes/message.router.js:22 | with the correction, the row of a two-message conversation shows the later message |
| PlannerInbox.OtherUserIdCanBeViewer | server/routes/message.router.js:20-21 | a planner writing to a vendor with a smaller id sees their own id as `otherUserId` |
| VendorInbox.JoinReducesToTalked | server/routes/message.router.js:66-70 | the users query's three-way join matches a user exactly when that user sent or received one of the viewer's messages |
| VendorInbox.Participants | server/routes/message.router.js:56-64 | a user is listed exactly when they appear in one of the viewer's messages |
| VendorInbox.Counterparts | server/routes/message.router.js:66-70 | the users query returns each known user who appears in one of the viewer's messages, once, the viewer included |
| VendorInbox.CandidatesNonEmpty | server/routes/message.router.js:106 | the second query finds at least one message for every counterpart other than the viewer |
| VendorInbox.PickByText | server/routes/message.router.js:104-108 | the picked message is a candidate, and its formatted date sorts at or after every candidate's as text |
| VendorInbox.PickByTextUpToText | server/routes/message.router.js:107-108 | every candidate whose formatted date sorts last shows the same date text as the pick, so `LIMIT 1` is unique up to equal text |
| VendorInbox.PickLatest | server/routes/message.router.js:101-108 | the corrected pick: a candidate with the latest date |
| VendorInbox.Pick | server/routes/message.router.js:104-108 | the picked message is a candidate that no candidate follows in the chosen order |
| VendorInbox.TextOrderPicksOlder | server/routes/message.router.js:107 | with a format in which a later date's text sorts first, the route shows the older of two messages |
| VendorInbox.DateOrderPicksNewer | server/routes/message.router.js:101 | for the same two messages, the date order picks the newer one |
| VendorInbox.CounterpartEntry | server/routes/message.router.js:84-118 | the entry names the counterpart with their `users` columns and the viewer's id; it shows the picked message, and its date only when the body is not empty |
| VendorInbox.VendorInbox | server/routes/message.router.js:50-128 | one entry for each known user other than the viewer who shares a message with the viewer, each exactly once, each built as above |
| MessageRouter.GetAll | server/routes/message.router.js:16-50 | a planner gets the planner list; every other user type gets the vendor list, with each counterpart exactly once and each entry built as in the vendor list |
| MessageRouter.GetAllIntended | server/routes/message.router.js:16-50 | the same dispatch with both corrections: the latest message per planner row, and each counterpart exactly once with the latest message by date |
| MessageReducer.AllMessagesReducer | src/redux/reducers/message.reducer.js:4-19 | `SET_ALL_MESSAGES` replaces the list with its payload; any other action keeps the list, or gives the default when there is none |
| MessageReducer.ChatReducer | src/redux/reducers/message.reducer.js:23-37 | `ADD_MESSAGE_TO_CHAT` grows the chat by one, keeping the old chat as prefix and the payload last; `SET_MESSAGES` replaces the chat; any other action keeps it |
| MessageReducer.RootReducer | src/redux/reducers/message.reducer.js:39 | `SET_ALL_MESSAGES` leaves the chat slice alone; the two chat actions leave the list slice alone; an unknown action changes nothing |
| MessageReducer.InitialState | src/redux/reducers/message.reducer.js:4-28 | the first state is a one-element list of zeros and empty strings in each slice |
| MessageReducer.SetTwiceIsSetOnce | src/redux/reducers/message.reducer.js:15-33 | dispatching the same `SET_MESSAGES` or `SET_ALL_MESSAGES` twice gives the state that dispatching it once gives |
| MessageReducer.AddsAppend | src/redux/reducers/message.reducer.js:30-31 | a run of `ADD_MESSAGE_TO_CHAT` actions appends their payloads in dispatch order and leaves the list slice alone |
| MessageReducer.SetThenAdds | src/redux/reducers/message.reducer.js:30-33 | opening a conversation and then receiving messages leaves the fetched thread followed by the new messages |

## Left out

- The socket.io broadcast of new messages is left out. It is network I/O and concurrency, and server/server.js is not part of this model.
- Failures are left out: the 500 responses, failed inserts, and a `Promise.all` bulk insert that fails partway. The bulk insert is modelled only when every insert succeeds.
- Connection handling is left out: pooling, `BEGIN`, the `COMMIT` inside the vendor loop, and releasing the connection. So are `console` logging and the `rejectUnauthenticated` middleware. The viewer's id and user type are parameters.
- `to_char` and the database's date arithmetic are left out. Dates are integers, and the formatting is the parameter `fmt`.
- Text comparison uses character-code order, as under the C collation. Other collations are not modelled.
- The `RIGHT OUTER JOIN` with `vendors` is an inner join here. The `WHERE` clause drops its null-padded rows.
- `vendors` holds at most one row per user.
- The message id column is left out. No route reads it.
- Orders the database leaves open are fixed in the model: ties in `ORDER BY`, the row order of `SELECT DISTINCT`, and which equal-text message `LIMIT 1` returns.
- Redux actions with a handled type and no payload are not modelled. `ReduxAction` excludes them.
- VendorInbox.CounterpartEntry: the route reads `rows[0]` without checking for an empty result; `CandidatesNonEmpty` shows that result is never empty, so the failure path is not modelled.

## Findings

| source | as written | input that shows it | evidently intended | confidence | as-written member | corrected member |
|---|---|---|---|---|---|---|
| server/routes/message.router.js:22-35 | `DISTINCT ON` the pair key with the date ordered `ASC` keeps each conversation's first message, and labels its date `maxDate` | planner 1 and vendor 2; "Hi" at time 10, then "Hello" at time 20; the row shows "Hi" at time 10 | the row shows the conversation's latest message, as the name `maxDate` says (date ordered `DESC`) | medium, not executed | PlannerInbox.PlannerShowsEarliest | PlannerInbox.PlannerInboxLatest |
| server/routes/message.router.js:101-108 | the latest message is chosen by `ORDER BY` the `to_char` text, which sorts day-first strings, not times | "Booked" at 31 JAN 2021 09:00 AM, then "Cancelled" at 01 FEB 2021 09:00 AM; "31 ..." sorts after "01 ...", so the entry shows "Booked" | the most recent message, as the comment on line 101 says (`ORDER BY "date" DESC`) | high, not executed | VendorInbox.TextOrderPicksOlder | VendorInbox.PickLatest |

`PlannerInbox.LatestShowsLastMessage` and `VendorInbox.DateOrderPicksNewer`
prove that the corrected members give the intended answer on the same
inputs. `MessageRouter.GetAllIntended` is the route built on both corrected
members. `MessageRouter.GetAll` keeps the behaviour as written.
