/**
  `GET /api/message/:id`: every message between the logged-in user and one
  other user, sent in either direction, oldest first. Messages with equal
  dates may come back in any order.
*/
module ThreadQuery {
  import opened Lex
  import opened Seqs
  import opened OrderBy
  import opened Messages
  import MessageStore

  /** The `WHERE` condition. */
  function InThread(a: int, b: int): Message -> bool
  {
    m => Between(m, a, b)
  }

  /** The `WHERE` clause: the rows between `a` and `b`, in log order. */
  function Conversation(log: seq<Message>, a: int, b: int): seq<Message>
  {
    Filter(log, InThread(a, b))
  }

  /** The `ORDER BY "date" ASC` rank. */
  function DateRank(m: Message): seq<int>
  {
    [m.date]
  }

  predicate SortedByDate(s: seq<Message>)
  {
    forall i, j :: 0 <= i < j < |s| ==> s[i].date <= s[j].date
  }

  lemma DateRankOrder(x: Message, y: Message)
    ensures Le(DateRank(x), DateRank(y)) <==> x.date <= y.date
  {
    assert DateRank(x)[1..] == [];
  }

  /** The thread's messages in the order the query returns them: each message
      between `a` and `b` exactly as often as it occurs in the log, no other
      message, dates never decreasing. */
  function ThreadMessages(log: seq<Message>, a: int, b: int): (r: seq<Message>)
    ensures forall m :: multiset(r)[m] == if Between(m, a, b) then multiset(log)[m] else 0
    ensures forall i :: 0 <= i < |r| ==> Between(r[i], a, b)
    ensures SortedByDate(r)
    ensures multiset(r) == multiset(Conversation(log, a, b))
  {
    var c := Conversation(log, a, b);
    var r := SortBy(c, DateRank);
    forall i, j | 0 <= i < j < |r|
      ensures r[i].date <= r[j].date
    {
      DateRankOrder(r[i], r[j]);
    }
    forall i | 0 <= i < |r|
      ensures Between(r[i], a, b)
    {
      assert r[i] in multiset(c);
    }
    r
  }

  /** The result columns `"fromUser"`, `"toUser"`, `"message"` and the
      formatted `"dateReceived"` of each message, in order. */
  function Formatted(ms: seq<Message>, fmt: int -> string): (r: seq<ChatEntry>)
    ensures |r| == |ms|
    ensures forall i :: 0 <= i < |r| ==>
              r[i].fromUser == ms[i].fromUser && r[i].toUser == ms[i].toUser
              && r[i].message == ms[i].message && r[i].dateReceived == fmt(ms[i].date)
  {
    seq(|ms|, i requires 0 <= i < |ms| => ChatEntry(ms[i].toUser, ms[i].fromUser, fmt(ms[i].date), ms[i].message))
  }

  /** The rows the route sends back: the thread's messages, in the thread's
      date order, each with its sender, recipient and body and its date
      formatted by `fmt` (the query's `to_char(date, 'DD MON YYYY HH:MI AM')`). */
  function Thread(log: seq<Message>, a: int, b: int, fmt: int -> string): (r: seq<ChatEntry>)
    ensures |r| == |Conversation(log, a, b)| == |ThreadMessages(log, a, b)|
    ensures forall i :: 0 <= i < |r| ==>
              (r[i].fromUser == a && r[i].toUser == b) || (r[i].fromUser == b && r[i].toUser == a)
    ensures forall i :: 0 <= i < |r| ==>
              var m := ThreadMessages(log, a, b)[i];
              r[i].fromUser == m.fromUser && r[i].toUser == m.toUser
              && r[i].message == m.message && r[i].dateReceived == fmt(m.date)
  {
    var ms := ThreadMessages(log, a, b);
    assert |ms| == |multiset(ms)| == |multiset(Conversation(log, a, b))|;
    Formatted(ms, fmt)
  }

  /** Asking from either side gives the same messages. */
  lemma ThreadSymmetric(log: seq<Message>, a: int, b: int)
    ensures multiset(ThreadMessages(log, a, b)) == multiset(ThreadMessages(log, b, a))
  {
    var x, y := ThreadMessages(log, a, b), ThreadMessages(log, b, a);
    forall m
      ensures multiset(x)[m] == multiset(y)[m]
    {
    }
  }

  /** A message is in the thread exactly when it is in the log and between
      the two users. */
  lemma ThreadMembers(log: seq<Message>, a: int, b: int, m: Message)
    ensures m in ThreadMessages(log, a, b) <==> m in log && Between(m, a, b)
  {
    var r := ThreadMessages(log, a, b);
    assert m in r <==> multiset(r)[m] > 0;
    assert m in log <==> multiset(log)[m] > 0;
  }

  /** Appending `m` to the log adds `m` to its own thread and to no other. */
  lemma AppendUpdatesThread(log: seq<Message>, m: Message, a: int, b: int)
    ensures multiset(ThreadMessages(log + [m], a, b))
            == multiset(ThreadMessages(log, a, b)) + (if Between(m, a, b) then multiset{m} else multiset{})
  {
    FilterAppend(log, m, InThread(a, b));
  }

  /** After a single insert, the thread of the two participants has gained
      exactly the new message, and every other thread is unchanged. */
  lemma PostUpdatesThreads(log: seq<Message>, fromUser: int, toUser: int, date: int, text: string, a: int, b: int)
    ensures var m := Message(fromUser, toUser, date, text);
            var after := ThreadMessages(MessageStore.Post(log, fromUser, toUser, date, text), a, b);
            multiset(after) == multiset(ThreadMessages(log, a, b)) + (if Between(m, a, b) then multiset{m} else multiset{})
  {
    var m := Message(fromUser, toUser, date, text);
    assert MessageStore.Post(log, fromUser, toUser, date, text) == log + [m];
    AppendUpdatesThread(log, m, a, b);
  }
}
