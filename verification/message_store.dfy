/**
  The two insert routes: `POST /api/message` adds one row to the `messages`
  table, `POST /api/message/bulk` adds every message of a batch. The table is
  modelled as an append-only log.
*/
module MessageStore {
  import opened Messages

  /** `POST /api/message`: one row built from the request's `fromUser`,
      `toUser`, `date` and `message`, added after the existing rows. */
  function Post(log: seq<Message>, fromUser: int, toUser: int, date: int, message: string): (r: seq<Message>)
    ensures |r| == |log| + 1
    ensures r[..|log|] == log
    ensures r[|log|] == Message(fromUser, toUser, date, message)
  {
    log + [Message(fromUser, toUser, date, message)]
  }

  /** Single inserts of `items`, one after another, in the given order. */
  function PostEach(log: seq<Message>, items: seq<Message>): (r: seq<Message>)
    ensures r == log + items
    decreases |items|
  {
    if |items| == 0 then log
    else
      var m := items[0];
      assert log + items == (log + [m]) + items[1..];
      PostEach(Post(log, m.fromUser, m.toUser, m.date, m.message), items[1..])
  }

  /** `POST /api/message/bulk` when every insert succeeds. The inserts are
      issued in parallel, so they land in the order they happen to complete:
      `arrival`, some rearrangement of the batch. */
  function PostBulk(log: seq<Message>, batch: seq<Message>, arrival: seq<Message>): (r: seq<Message>)
    requires multiset(arrival) == multiset(batch)
    ensures |r| == |log| + |batch|
    ensures r[..|log|] == log
    ensures multiset(r[|log|..]) == multiset(batch)
    ensures multiset(r) == multiset(log) + multiset(batch)
    ensures forall m :: m in batch ==> m in r
  {
    var r := PostEach(log, arrival);
    assert r[|log|..] == arrival;
    assert forall m :: m in batch ==> m in multiset(arrival);
    r
  }
}
