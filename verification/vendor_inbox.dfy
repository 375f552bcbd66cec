/**
  The vendor branch of `GET /api/message/all` (taken for every user whose
  type is not "planner").

  A first query lists the distinct users who sent or received any of the
  viewer's messages. For each of them other than the viewer, a second query
  picks the one message between the two whose date, FORMATTED as text
  (`to_char(date, 'DD MON YYYY HH:MI AM')`), sorts last. The pick therefore
  follows the order of the text, not the order of time.
*/
module VendorInbox {
  import opened Lex
  import opened Seqs
  import opened Messages

  /** One element of the vendor's conversation list. */
  datatype VendorEntry = VendorEntry(
    otherUserId: int,
    firstName: string,
    lastName: string,
    profilePic: string,
    message: string,
    messageDate: string,
    userId: int)

  /** `u` sent or received one of the viewer's messages. */
  ghost predicate Talked(log: seq<Message>, viewer: int, u: int)
  {
    exists m :: m in log && Involves(m, viewer) && Involves(m, u)
  }

  /** The users query's join and `WHERE` conditions, for user `u`, a row `s`
      of "sendingUsers" and a row `r` of "receivingUsers" (both the viewer's
      messages). */
  predicate JoinMatch(u: int, s: Message, r: Message)
  {
    && (u == s.fromUser || u == s.toUser)
    && (u == r.toUser || u == r.fromUser)
    && (u == s.fromUser || u == r.toUser)
  }

  /** The join pairs each user with two of the viewer's messages, but a user
      matches some pair exactly when they appear in one of the viewer's
      messages: the second common table expression adds nothing. */
  lemma JoinReducesToTalked(log: seq<Message>, viewer: int, u: int)
    ensures (exists s, r :: s in log && r in log && Involves(s, viewer) && Involves(r, viewer) && JoinMatch(u, s, r))
            <==> Talked(log, viewer, u)
  {
    if Talked(log, viewer, u) {
      var m :| m in log && Involves(m, viewer) && Involves(m, u);
      assert JoinMatch(u, m, m);
    }
  }

  /** Both participants of every message the viewer sent or received, in log
      order, with repeats. */
  function Participants(log: seq<Message>, viewer: int): (r: seq<int>)
    ensures forall u :: u in r <==> Talked(log, viewer, u)
    decreases |log|
  {
    if |log| == 0 then []
    else
      var rest := Participants(log[1..], viewer);
      assert forall m :: m in log[1..] ==> m in log;
      assert forall m :: m in log ==> m == log[0] || m in log[1..];
      (if Involves(log[0], viewer) then [log[0].fromUser, log[0].toUser] else []) + rest
  }

  /** The users query: the ids of the distinct `users` rows that joined with
      the viewer's messages. Its three-way join reduces to "known users that
      appear in a message the viewer sent or received", which includes the
      viewer whenever the viewer has any message. The database leaves the
      order open; this is order of first appearance in the log. */
  function Counterparts(log: seq<Message>, users: Users, viewer: int): (ids: seq<int>)
    ensures Distinct(ids)
    ensures forall u :: u in ids <==> u in users && Talked(log, viewer, u)
  {
    Filter(Dedup(Participants(log, viewer)), u => u in users)
  }

  /** `m` passes the second query's `WHERE "fromUser" IN ($1, $2) AND
      "toUser" IN ($1, $2)`: a message between the two users, or one the
      viewer or the other user sent to themself. */
  predicate InPair(m: Message, viewer: int, other: int)
  {
    (m.fromUser == viewer || m.fromUser == other) && (m.toUser == viewer || m.toUser == other)
  }

  function Candidates(log: seq<Message>, viewer: int, other: int): seq<Message>
  {
    Filter(log, m => InPair(m, viewer, other))
  }

  /** A counterpart always has at least one candidate message: the one that
      made them a counterpart. */
  lemma CandidatesNonEmpty(log: seq<Message>, users: Users, viewer: int, other: int)
    requires other in Counterparts(log, users, viewer) && other != viewer
    ensures |Candidates(log, viewer, other)| > 0
  {
    var m :| m in log && Involves(m, viewer) && Involves(m, other);
    assert InPair(m, viewer, other);
    assert m in Candidates(log, viewer, other);
  }

  /** `ORDER BY "dateReceived" DESC LIMIT 1`: a message whose formatted date
      sorts last as text. Among equal texts the database may return any; this
      returns the last one in the log. */
  function PickByText(cands: seq<Message>, fmt: int -> string): (c: Message)
    requires |cands| > 0
    ensures c in cands
    ensures forall d :: d in cands ==> TextLe(fmt(d.date), fmt(c.date))
    decreases |cands|
  {
    TextLeReflexive(fmt(cands[0].date));
    if |cands| == 1 then cands[0]
    else
      var best := PickByText(cands[1..], fmt);
      assert forall d :: d in cands ==> d == cands[0] || d in cands[1..];
      if TextLe(fmt(cands[0].date), fmt(best.date)) then best
      else
        TextLeTotal(fmt(cands[0].date), fmt(best.date));
        RaiseBound(cands[1..], fmt, best, cands[0]);
        cands[0]
  }

  lemma RaiseBound(ds: seq<Message>, fmt: int -> string, best: Message, top: Message)
    requires forall d :: d in ds ==> TextLe(fmt(d.date), fmt(best.date))
    requires TextLe(fmt(best.date), fmt(top.date))
    ensures forall d :: d in ds ==> TextLe(fmt(d.date), fmt(top.date))
  {
    forall d | d in ds
      ensures TextLe(fmt(d.date), fmt(top.date))
    {
      TextLeTransitive(fmt(d.date), fmt(best.date), fmt(top.date));
    }
  }

  /** `LIMIT 1` may return any candidate whose formatted date sorts last, but
      all of them show the same date text: the pick is unique up to equal
      text. */
  lemma PickByTextUpToText(cands: seq<Message>, fmt: int -> string, c: Message)
    requires c in cands
    requires forall d :: d in cands ==> TextLe(fmt(d.date), fmt(c.date))
    ensures fmt(c.date) == fmt(PickByText(cands, fmt).date)
  {
    var p := PickByText(cands, fmt);
    TextLeAntisymmetric(fmt(c.date), fmt(p.date));
  }

  /** The pick the view evidently intends: a candidate with the latest date.
      Among equal dates it returns the last one in the log. */
  function PickLatest(cands: seq<Message>): (c: Message)
    requires |cands| > 0
    ensures c in cands
    ensures forall d :: d in cands ==> d.date <= c.date
    decreases |cands|
  {
    if |cands| == 1 then cands[0]
    else
      var best := PickLatest(cands[1..]);
      assert forall d :: d in cands ==> d == cands[0] || d in cands[1..];
      if cands[0].date <= best.date then best else cands[0]
  }

  /** The order the second query ranks candidates by: the formatted date
      text, as the route does, or the date itself, as it evidently intends. */
  datatype PickOrder = ByFormattedText | ByDate

  /** No candidate comes after `c` in `order`. */
  predicate PickedLast(order: PickOrder, c: Message, cands: seq<Message>, fmt: int -> string)
  {
    forall d :: d in cands ==>
      if order.ByFormattedText? then TextLe(fmt(d.date), fmt(c.date)) else d.date <= c.date
  }

  /** `ORDER BY ... DESC LIMIT 1` in the given order. */
  function Pick(cands: seq<Message>, fmt: int -> string, order: PickOrder): (c: Message)
    requires |cands| > 0
    ensures c in cands
    ensures PickedLast(order, c, cands, fmt)
  {
    if order.ByFormattedText? then PickByText(cands, fmt) else PickLatest(cands)
  }

  /** Formats time 50 as "31 JAN 2021 09:00 AM" and every other time as
      "01 FEB 2021 09:00 AM": a later date whose text sorts first. */
  function SampleFormat(date: int): string
  {
    if date == 50 then "31 JAN 2021 09:00 AM" else "01 FEB 2021 09:00 AM"
  }

  /** Of a message at time 50 and a reply at time 100, the text order picks
      the OLDER one, because "31 JAN ..." sorts after "01 FEB ...". */
  lemma TextOrderPicksOlder()
    ensures PickByText([Message(2, 1, 50, "Booked"), Message(1, 2, 100, "Cancelled")], SampleFormat)
            == Message(2, 1, 50, "Booked")
  {
    var older, newer := Message(2, 1, 50, "Booked"), Message(1, 2, 100, "Cancelled");
    var c := PickByText([older, newer], SampleFormat);
    assert Codes(SampleFormat(50))[0] == 51 && Codes(SampleFormat(100))[0] == 48;
    assert !TextLe(SampleFormat(50), SampleFormat(100));
    assert TextLe(SampleFormat(older.date), SampleFormat(c.date));
  }

  /** The date order picks the reply. */
  lemma DateOrderPicksNewer()
    ensures PickLatest([Message(2, 1, 50, "Booked"), Message(1, 2, 100, "Cancelled")])
            == Message(1, 2, 100, "Cancelled")
  {
    var older, newer := Message(2, 1, 50, "Booked"), Message(1, 2, 100, "Cancelled");
    var c := PickLatest([older, newer]);
    assert newer in [older, newer];
  }

  /** The entry built in the route's loop: the other user's columns, and the
      picked message's body and formatted date, which are copied only when
      the body is not empty (otherwise both stay ''). */
  function Entry(viewer: int, other: int, info: User, picked: Message, fmt: int -> string): VendorEntry
  {
    if picked.message != "" then
      VendorEntry(other, info.firstName, info.lastName, info.profilePic, picked.message, fmt(picked.date), viewer)
    else
      VendorEntry(other, info.firstName, info.lastName, info.profilePic, "", "", viewer)
  }

  /** `e` shows, for its counterpart, a candidate message that comes last in
      `order`, with the date left blank when the body is empty. */
  ghost predicate ShowsLast(e: VendorEntry, log: seq<Message>, viewer: int, fmt: int -> string, order: PickOrder)
  {
    var cands := Candidates(log, viewer, e.otherUserId);
    exists c :: c in cands
      && PickedLast(order, c, cands, fmt)
      && e.message == c.message
      && e.messageDate == (if c.message == "" then "" else fmt(c.date))
  }

  /** `e` carries the `users` columns of its counterpart and the viewer's id. */
  predicate ShowsUser(e: VendorEntry, users: Users, viewer: int)
  {
    && e.userId == viewer
    && e.otherUserId in users
    && e.firstName == users[e.otherUserId].firstName
    && e.lastName == users[e.otherUserId].lastName
    && e.profilePic == users[e.otherUserId].profilePic
  }

  /** `e` is a correct entry of the viewer's list: a counterpart other than
      the viewer, shown with their `users` columns and the message that
      comes last in `order`. */
  ghost predicate Shows(e: VendorEntry, log: seq<Message>, users: Users, viewer: int, fmt: int -> string, order: PickOrder)
  {
    e.otherUserId != viewer && ShowsUser(e, users, viewer) && ShowsLast(e, log, viewer, fmt, order)
  }

  /** The entry for one counterpart: the second query and the loop body. */
  function CounterpartEntry(log: seq<Message>, users: Users, viewer: int, other: int, fmt: int -> string, order: PickOrder): (e: VendorEntry)
    requires other in Counterparts(log, users, viewer) && other != viewer
    ensures e.otherUserId == other
    ensures Shows(e, log, users, viewer, fmt, order)
  {
    var cands := Candidates(log, viewer, other);
    CandidatesNonEmpty(log, users, viewer, other);
    var picked := Pick(cands, fmt, order);
    Entry(viewer, other, users[other], picked, fmt)
  }

  /** The counterpart ids of a list, in order. */
  function OtherIds(list: seq<VendorEntry>): (ids: seq<int>)
    ensures |ids| == |list|
    ensures forall i :: 0 <= i < |list| ==> ids[i] == list[i].otherUserId
  {
    seq(|list|, i requires 0 <= i < |list| => list[i].otherUserId)
  }

  /** The vendor's conversation list: one entry for each user, other than the
      viewer, who sent to or received from the viewer, each once, with that
      user's columns and the message that comes last in `order` (the route
      uses `ByFormattedText`). */
  method VendorInbox(log: seq<Message>, users: Users, viewer: int, fmt: int -> string, order: PickOrder)
      returns (list: seq<VendorEntry>)
    ensures forall u :: u in OtherIds(list) <==> u != viewer && u in users && Talked(log, viewer, u)
    ensures Distinct(OtherIds(list))
    ensures forall i :: 0 <= i < |list| ==> Shows(list[i], log, users, viewer, fmt, order)
  {
    var ids := Counterparts(log, users, viewer);
    list := [];
    var k := 0;
    while k < |ids|
      invariant 0 <= k <= |ids|
      invariant ListSoFar(list, ids, k, log, users, viewer, fmt, order)
    {
      var other := ids[k];
      if other != viewer {
        var e := CounterpartEntry(log, users, viewer, other, fmt, order);
        Extend(list, e, ids, k, log, users, viewer, fmt, order);
        list := list + [e];
      } else {
        SkipViewer(list, ids, k, log, users, viewer, fmt, order);
      }
      k := k + 1;
    }
    assert ids[..k] == ids;
  }

  /** The loop invariant: the entries built from the first `k` ids. */
  ghost predicate ListSoFar(list: seq<VendorEntry>, ids: seq<int>, k: int, log: seq<Message>, users: Users, viewer: int,
                           fmt: int -> string, order: PickOrder)
    requires 0 <= k <= |ids|
  {
    && (forall i :: 0 <= i < |list| ==> Shows(list[i], log, users, viewer, fmt, order))
    && Distinct(OtherIds(list))
    && (forall u :: u in OtherIds(list) <==> u != viewer && u in ids[..k])
  }

  lemma Extend(list: seq<VendorEntry>, e: VendorEntry, ids: seq<int>, k: int,
               log: seq<Message>, users: Users, viewer: int, fmt: int -> string, order: PickOrder)
    requires Distinct(ids) && 0 <= k < |ids|
    requires ListSoFar(list, ids, k, log, users, viewer, fmt, order)
    requires e.otherUserId == ids[k] && Shows(e, log, users, viewer, fmt, order)
    ensures ListSoFar(list + [e], ids, k + 1, log, users, viewer, fmt, order)
  {
    assert ids[..k + 1] == ids[..k] + [ids[k]];
    assert OtherIds(list + [e]) == OtherIds(list) + [ids[k]];
    assert ids[k] !in ids[..k];
  }

  lemma SkipViewer(list: seq<VendorEntry>, ids: seq<int>, k: int,
                   log: seq<Message>, users: Users, viewer: int, fmt: int -> string, order: PickOrder)
    requires 0 <= k < |ids| && ids[k] == viewer
    requires ListSoFar(list, ids, k, log, users, viewer, fmt, order)
    ensures ListSoFar(list, ids, k + 1, log, users, viewer, fmt, order)
  {
    assert ids[..k + 1] == ids[..k] + [ids[k]];
  }
}
