/**
  The planner branch of `GET /api/message/all`.

  The query joins each message with the `users` row of either participant
  and that user's `vendors` row, keeps the messages the viewer sent or
  received, orders the rows by the conversation key `(GREATEST, LEAST)` and
  then by date, and keeps, with `DISTINCT ON`, the first row of each key.
  Because the date order is ascending, the row kept is the conversation's
  EARLIEST message, although its column is called `maxDate`.
*/
module PlannerInbox {
  import opened Lex
  import opened OrderBy
  import opened Messages

  /** One row of the planner query. `otherUserId` is the GREATEST of the two
      participants and `userId` the LEAST, whichever of them is the viewer. */
  datatype PlannerRow = PlannerRow(
    otherUserId: int,
    userId: int,
    maxDate: int,
    message: string,
    firstName: string,
    lastName: string,
    companyName: string,
    profilePic: string)

  function RowKey(r: PlannerRow): PairKey
  {
    PairKey(r.otherUserId, r.userId)
  }

  /** `u` survives the join with both `users` and `vendors`. */
  predicate HasVendorRow(u: int, users: Users, vendors: Vendors)
  {
    u in users && u in vendors
  }

  /** The row the join produces for message `m` matched with participant `u`. */
  function JoinRow(m: Message, u: int, users: Users, vendors: Vendors): PlannerRow
    requires HasVendorRow(u, users, vendors)
  {
    var k := KeyOf(m);
    PlannerRow(k.hi, k.lo, m.date, m.message,
               users[u].firstName, users[u].lastName, vendors[u], users[u].profilePic)
  }

  /** `r` is a row the join can produce for `m`: matched with a participant
      that has a vendor row. */
  predicate RowOf(r: PlannerRow, m: Message, users: Users, vendors: Vendors)
  {
    || (HasVendorRow(m.fromUser, users, vendors) && r == JoinRow(m, m.fromUser, users, vendors))
    || (HasVendorRow(m.toUser, users, vendors) && r == JoinRow(m, m.toUser, users, vendors))
  }

  lemma RowOfMessage(r: PlannerRow, m: Message, users: Users, vendors: Vendors)
    requires RowOf(r, m, users, vendors)
    ensures RowKey(r) == KeyOf(m) && r.maxDate == m.date && r.message == m.message
    ensures r.otherUserId >= r.userId
  {
  }

  /** The join rows of one message: one per participant that has a vendor
      row (one in all when a user messages themself). */
  function MessageRows(m: Message, users: Users, vendors: Vendors): (rows: seq<PlannerRow>)
    ensures forall r :: r in rows <==> RowOf(r, m, users, vendors)
  {
    (if HasVendorRow(m.fromUser, users, vendors) then [JoinRow(m, m.fromUser, users, vendors)] else [])
    + (if m.toUser != m.fromUser && HasVendorRow(m.toUser, users, vendors)
       then [JoinRow(m, m.toUser, users, vendors)] else [])
  }

  /** The message contributes to the viewer's planner list: the viewer sent
      or received it, and at least one participant has a vendor row. */
  predicate Survives(m: Message, viewer: int, users: Users, vendors: Vendors)
  {
    Involves(m, viewer) && (HasVendorRow(m.fromUser, users, vendors) || HasVendorRow(m.toUser, users, vendors))
  }

  /** The `FROM ... JOIN ... WHERE` part of the query. */
  function JoinedRows(log: seq<Message>, viewer: int, users: Users, vendors: Vendors): seq<PlannerRow>
    decreases |log|
  {
    if |log| == 0 then []
    else
      (if Involves(log[0], viewer) then MessageRows(log[0], users, vendors) else [])
      + JoinedRows(log[1..], viewer, users, vendors)
  }

  lemma {:induction false} JoinedRowsMembers(log: seq<Message>, viewer: int, users: Users, vendors: Vendors, r: PlannerRow)
    ensures r in JoinedRows(log, viewer, users, vendors)
            <==> exists i :: 0 <= i < |log| && Involves(log[i], viewer) && RowOf(r, log[i], users, vendors)
    decreases |log|
  {
    if |log| > 0 {
      JoinedRowsMembers(log[1..], viewer, users, vendors, r);
      if r in JoinedRows(log[1..], viewer, users, vendors) {
        var i :| 0 <= i < |log[1..]| && Involves(log[1..][i], viewer) && RowOf(r, log[1..][i], users, vendors);
        assert log[1..][i] == log[i + 1];
      }
      if i :| 0 <= i < |log| && Involves(log[i], viewer) && RowOf(r, log[i], users, vendors) {
        if i > 0 {
          assert log[1..][i - 1] == log[i];
        }
      }
    }
  }

  /** Direction of the date column in the query's `ORDER BY`. */
  datatype DateOrder = Ascending | Descending

  /** The `ORDER BY GREATEST(..), LEAST(..), "maxDate"` rank of a row. */
  function Rank(dir: DateOrder, r: PlannerRow): seq<int>
  {
    [r.otherUserId, r.userId, if dir == Ascending then r.maxDate else -r.maxDate]
  }

  function RankBy(dir: DateOrder): PlannerRow -> seq<int>
  {
    r => Rank(dir, r)
  }

  /** Date `d` comes no later than `e` in the direction `dir`. */
  predicate DateFirst(dir: DateOrder, d: int, e: int)
  {
    if dir == Ascending then d <= e else d >= e
  }

  predicate KeyLt(k: PairKey, l: PairKey)
  {
    k.hi < l.hi || (k.hi == l.hi && k.lo < l.lo)
  }

  predicate RowBefore(dir: DateOrder, a: PlannerRow, b: PlannerRow)
  {
    KeyLt(RowKey(a), RowKey(b)) || (RowKey(a) == RowKey(b) && DateFirst(dir, a.maxDate, b.maxDate))
  }

  predicate RowsSorted(dir: DateOrder, s: seq<PlannerRow>)
  {
    forall i, j :: 0 <= i < j < |s| ==> RowBefore(dir, s[i], s[j])
  }

  lemma RankOrder(dir: DateOrder, a: PlannerRow, b: PlannerRow)
    ensures Le(RankBy(dir)(a), RankBy(dir)(b)) <==> RowBefore(dir, a, b)
  {
    var x, y := Rank(dir, a), Rank(dir, b);
    assert RankBy(dir)(a) == x && RankBy(dir)(b) == y;
    assert x[1..][1..][1..] == [];
    assert Le(x[1..][1..], y[1..][1..]) <==> x[2] <= y[2];
    assert Le(x[1..], y[1..]) <==> x[1] < y[1] || (x[1] == y[1] && x[2] <= y[2]);
  }

  lemma SortedRows(dir: DateOrder, s: seq<PlannerRow>)
    requires SortedBy(s, RankBy(dir))
    ensures RowsSorted(dir, s)
  {
    forall i, j | 0 <= i < j < |s|
      ensures RowBefore(dir, s[i], s[j])
    {
      RankOrder(dir, s[i], s[j]);
    }
  }

  /** Row `i` is the first of its key in `s`, the one `DISTINCT ON` keeps. */
  predicate IsRunHead(s: seq<PlannerRow>, i: int)
    requires 0 <= i < |s|
  {
    i == 0 || RowKey(s[i]) != RowKey(s[i - 1])
  }

  /** `DISTINCT ON (GREATEST, LEAST)` over rows already in key order: the
      first row of each run of equal keys. */
  function DistinctOn(s: seq<PlannerRow>): seq<PlannerRow>
    decreases |s|
  {
    if |s| == 0 then []
    else DistinctOn(s[..|s| - 1]) + (if IsRunHead(s, |s| - 1) then [s[|s| - 1]] else [])
  }

  lemma {:induction false} DistinctOnMembers(s: seq<PlannerRow>, r: PlannerRow)
    ensures r in DistinctOn(s) <==> exists i :: 0 <= i < |s| && IsRunHead(s, i) && s[i] == r
    decreases |s|
  {
    if |s| > 0 {
      var init := s[..|s| - 1];
      DistinctOnMembers(init, r);
      assert forall i :: 0 <= i < |init| ==> (IsRunHead(init, i) <==> IsRunHead(s, i));
      if i :| 0 <= i < |s| && IsRunHead(s, i) && s[i] == r {
        if i < |init| {
          assert init[i] == r;
        }
      }
    }
  }

  /** The conversation keys of a list of rows, in order. */
  function Keys(rows: seq<PlannerRow>): seq<PairKey>
  {
    seq(|rows|, j requires 0 <= j < |rows| => RowKey(rows[j]))
  }

  predicate KeysAscending(s: seq<PlannerRow>)
  {
    forall i, j :: 0 <= i < j < |s| ==> KeyLt(RowKey(s[i]), RowKey(s[j]))
  }

  lemma PrefixSorted(dir: DateOrder, s: seq<PlannerRow>, n: nat)
    requires RowsSorted(dir, s) && n <= |s|
    ensures RowsSorted(dir, s[..n])
  {
    assert forall i :: 0 <= i < n ==> s[..n][i] == s[i];
  }

  /** Every row before a run head has a smaller key. */
  lemma KeyBelowHead(dir: DateOrder, s: seq<PlannerRow>, i: int, n: int)
    requires RowsSorted(dir, s)
    requires 0 <= i < n < |s| && IsRunHead(s, n)
    ensures KeyLt(RowKey(s[i]), RowKey(s[n]))
  {
    var a, b, c := s[i], s[n - 1], s[n];
    assert RowBefore(dir, b, c);
    assert i == n - 1 || RowBefore(dir, a, b);
    assert RowBefore(dir, a, c);
  }

  lemma BelowNewHead(dir: DateOrder, s: seq<PlannerRow>, x: PlannerRow)
    requires RowsSorted(dir, s) && |s| > 0 && IsRunHead(s, |s| - 1)
    requires x in DistinctOn(s[..|s| - 1])
    ensures KeyLt(RowKey(x), RowKey(s[|s| - 1]))
  {
    var n := |s| - 1;
    var init := s[..n];
    DistinctOnMembers(init, x);
    var i :| 0 <= i < |init| && IsRunHead(init, i) && init[i] == x;
    KeyBelowHead(dir, s, i, n);
  }

  lemma AppendAscending(prev: seq<PlannerRow>, y: PlannerRow)
    requires KeysAscending(prev)
    requires forall x :: x in prev ==> KeyLt(RowKey(x), RowKey(y))
    ensures KeysAscending(prev + [y])
  {
    var r := prev + [y];
    forall i, j | 0 <= i < j < |r|
      ensures KeyLt(RowKey(r[i]), RowKey(r[j]))
    {
      if j == |prev| {
        assert r[i] in prev;
      }
    }
  }

  lemma {:induction false} DistinctOnAscending(dir: DateOrder, s: seq<PlannerRow>)
    requires RowsSorted(dir, s)
    ensures KeysAscending(DistinctOn(s))
    decreases |s|
  {
    if |s| > 0 {
      var n := |s| - 1;
      PrefixSorted(dir, s, n);
      DistinctOnAscending(dir, s[..n]);
      if IsRunHead(s, n) {
        forall x | x in DistinctOn(s[..n])
          ensures KeyLt(RowKey(x), RowKey(s[n]))
        {
          BelowNewHead(dir, s, x);
        }
        AppendAscending(DistinctOn(s[..n]), s[n]);
      }
    }
  }

  /** The row `DISTINCT ON` keeps comes first, in date order, among all rows
      of its key. */
  lemma RunHeadFirst(dir: DateOrder, s: seq<PlannerRow>, i: int, j: int)
    requires RowsSorted(dir, s)
    requires 0 <= i < |s| && 0 <= j < |s|
    requires IsRunHead(s, i) && RowKey(s[j]) == RowKey(s[i])
    ensures DateFirst(dir, s[i].maxDate, s[j].maxDate)
  {
  }

  /** Every key in `s` has a run head. */
  lemma {:induction false} HeadOfRun(s: seq<PlannerRow>, j: int)
    requires 0 <= j < |s|
    ensures exists i :: 0 <= i <= j && IsRunHead(s, i) && RowKey(s[i]) == RowKey(s[j])
    decreases j
  {
    if !IsRunHead(s, j) {
      HeadOfRun(s, j - 1);
    }
  }

  /** Every row `DISTINCT ON` keeps comes from a surviving message. */
  lemma KeptRowsSurvive(log: seq<Message>, viewer: int, users: Users, vendors: Vendors, s: seq<PlannerRow>)
    requires forall r :: r in s <==> r in JoinedRows(log, viewer, users, vendors)
    ensures forall r :: r in DistinctOn(s) ==>
              exists i :: 0 <= i < |log| && Survives(log[i], viewer, users, vendors) && RowOf(r, log[i], users, vendors)
  {
    forall r | r in DistinctOn(s)
      ensures exists i :: 0 <= i < |log| && Survives(log[i], viewer, users, vendors) && RowOf(r, log[i], users, vendors)
    {
      DistinctOnMembers(s, r);
      JoinedRowsMembers(log, viewer, users, vendors, r);
    }
  }

  /** A surviving message puts a row of its own key among the sorted rows. */
  lemma SurvivorRow(log: seq<Message>, viewer: int, users: Users, vendors: Vendors, s: seq<PlannerRow>, i: int)
      returns (j: int)
    requires forall r :: r in s <==> r in JoinedRows(log, viewer, users, vendors)
    requires 0 <= i < |log| && Survives(log[i], viewer, users, vendors)
    ensures 0 <= j < |s| && RowKey(s[j]) == KeyOf(log[i]) && s[j].maxDate == log[i].date
  {
    var x := MessageRows(log[i], users, vendors)[0];
    RowOfMessage(x, log[i], users, vendors);
    JoinedRowsMembers(log, viewer, users, vendors, x);
    j :| 0 <= j < |s| && s[j] == x;
  }

  /** Every conversation with a surviving message keeps a row. */
  lemma EverySurvivorKept(log: seq<Message>, viewer: int, users: Users, vendors: Vendors, s: seq<PlannerRow>)
    requires forall r :: r in s <==> r in JoinedRows(log, viewer, users, vendors)
    ensures forall i :: 0 <= i < |log| && Survives(log[i], viewer, users, vendors) ==> KeyOf(log[i]) in Keys(DistinctOn(s))
  {
    var out := DistinctOn(s);
    forall i | 0 <= i < |log| && Survives(log[i], viewer, users, vendors)
      ensures KeyOf(log[i]) in Keys(out)
    {
      var j := SurvivorRow(log, viewer, users, vendors, s, i);
      HeadOfRun(s, j);
      var h :| 0 <= h <= j && IsRunHead(s, h) && RowKey(s[h]) == RowKey(s[j]);
      DistinctOnMembers(s, s[h]);
      var k :| 0 <= k < |out| && out[k] == s[h];
      assert Keys(out)[k] == KeyOf(log[i]);
    }
  }

  /** The kept row of a conversation comes first, in the sort's date
      direction, among all its surviving messages. */
  lemma KeptRowFirst(dir: DateOrder, log: seq<Message>, viewer: int, users: Users, vendors: Vendors, s: seq<PlannerRow>)
    requires RowsSorted(dir, s)
    requires forall r :: r in s <==> r in JoinedRows(log, viewer, users, vendors)
    ensures forall r, i ::
              (r in DistinctOn(s) && 0 <= i < |log| && Survives(log[i], viewer, users, vendors) && KeyOf(log[i]) == RowKey(r))
              ==> DateFirst(dir, r.maxDate, log[i].date)
  {
    forall r, i | r in DistinctOn(s) && 0 <= i < |log| && Survives(log[i], viewer, users, vendors) && KeyOf(log[i]) == RowKey(r)
      ensures DateFirst(dir, r.maxDate, log[i].date)
    {
      DistinctOnMembers(s, r);
      var h :| 0 <= h < |s| && IsRunHead(s, h) && s[h] == r;
      var j := SurvivorRow(log, viewer, users, vendors, s, i);
      RunHeadFirst(dir, s, h, j);
    }
  }

  /** The planner's conversation list, as the query computes it: at most one
      row per conversation (keys strictly ascending), every row drawn from a
      message the viewer sent or received and whose join found a vendor row,
      every such conversation present, and `maxDate` the conversation's
      earliest date. */
  function PlannerInbox(log: seq<Message>, viewer: int, users: Users, vendors: Vendors): (out: seq<PlannerRow>)
    ensures KeysAscending(out)
    ensures forall r :: r in out ==>
              exists i :: 0 <= i < |log| && Survives(log[i], viewer, users, vendors) && RowOf(r, log[i], users, vendors)
    ensures forall r :: r in out ==> r.otherUserId >= r.userId && (r.otherUserId == viewer || r.userId == viewer)
    ensures forall i :: 0 <= i < |log| && Survives(log[i], viewer, users, vendors) ==> KeyOf(log[i]) in Keys(out)
    ensures forall r, i ::
              (r in out && 0 <= i < |log| && Survives(log[i], viewer, users, vendors) && KeyOf(log[i]) == RowKey(r))
              ==> r.maxDate <= log[i].date
  {
    var joined := JoinedRows(log, viewer, users, vendors);
    var s := SortBy(joined, RankBy(Ascending));
    SortedRows(Ascending, s);
    assert forall r :: r in s <==> r in multiset(joined);
    DistinctOnAscending(Ascending, s);
    KeptRowsSurvive(log, viewer, users, vendors, s);
    EverySurvivorKept(log, viewer, users, vendors, s);
    KeptRowFirst(Ascending, log, viewer, users, vendors, s);
    ViewerInEveryRow(DistinctOn(s), log, viewer, users, vendors);
    DistinctOn(s)
  }

  lemma ViewerInEveryRow(out: seq<PlannerRow>, log: seq<Message>, viewer: int, users: Users, vendors: Vendors)
    requires forall r :: r in out ==>
               exists i :: 0 <= i < |log| && Survives(log[i], viewer, users, vendors) && RowOf(r, log[i], users, vendors)
    ensures forall r :: r in out ==> r.otherUserId >= r.userId && (r.otherUserId == viewer || r.userId == viewer)
  {
    forall r | r in out
      ensures r.otherUserId >= r.userId && (r.otherUserId == viewer || r.userId == viewer)
    {
      var i :| 0 <= i < |log| && Survives(log[i], viewer, users, vendors) && RowOf(r, log[i], users, vendors);
      RowOfMessage(r, log[i], users, vendors);
    }
  }

  /** The list the view evidently intends, with `maxDate` the conversation's
      LATEST date: the same query with the date column ordered `DESC`, so
      that `DISTINCT ON` keeps each conversation's last message. */
  function PlannerInboxLatest(log: seq<Message>, viewer: int, users: Users, vendors: Vendors): (out: seq<PlannerRow>)
    ensures KeysAscending(out)
    ensures forall r :: r in out ==>
              exists i :: 0 <= i < |log| && Survives(log[i], viewer, users, vendors) && RowOf(r, log[i], users, vendors)
    ensures forall i :: 0 <= i < |log| && Survives(log[i], viewer, users, vendors) ==> KeyOf(log[i]) in Keys(out)
    ensures forall r, i ::
              (r in out && 0 <= i < |log| && Survives(log[i], viewer, users, vendors) && KeyOf(log[i]) == RowKey(r))
              ==> r.maxDate >= log[i].date
  {
    var joined := JoinedRows(log, viewer, users, vendors);
    var s := SortBy(joined, RankBy(Descending));
    SortedRows(Descending, s);
    assert forall r :: r in s <==> r in multiset(joined);
    DistinctOnAscending(Descending, s);
    KeptRowsSurvive(log, viewer, users, vendors, s);
    EverySurvivorKept(log, viewer, users, vendors, s);
    KeptRowFirst(Descending, log, viewer, users, vendors, s);
    DistinctOn(s)
  }

  /** Two messages of one conversation, the first one earlier: the planner's
      list shows the first message and its date, not the latest one. With
      "Hi" at time 10 and "Hello" at time 20 between planner 1 and vendor 2,
      the row reads "Hi". */
  lemma PlannerShowsEarliest(log: seq<Message>, viewer: int, users: Users, vendors: Vendors)
    requires |log| == 2 && Survives(log[0], viewer, users, vendors) && Survives(log[1], viewer, users, vendors)
    requires KeyOf(log[0]) == KeyOf(log[1]) && log[0].date < log[1].date
    ensures PlannerInbox(log, viewer, users, vendors) != []
    ensures forall r :: r in PlannerInbox(log, viewer, users, vendors) ==>
              r.maxDate == log[0].date && r.message == log[0].message
  {
    var out := PlannerInbox(log, viewer, users, vendors);
    assert KeyOf(log[0]) in Keys(out);
    forall r | r in out
      ensures r.maxDate == log[0].date && r.message == log[0].message
    {
      var i :| 0 <= i < |log| && Survives(log[i], viewer, users, vendors) && RowOf(r, log[i], users, vendors);
      RowOfMessage(r, log[i], users, vendors);
      assert KeyOf(log[0]) == RowKey(r);
      OnlyTheFirstIsEarliest(log, r, i);
    }
  }

  lemma OnlyTheFirstIsEarliest(log: seq<Message>, r: PlannerRow, i: int)
    requires |log| == 2 && log[0].date < log[1].date && 0 <= i < 2
    requires r.maxDate == log[i].date && r.message == log[i].message
    requires r.maxDate <= log[0].date
    ensures r.maxDate == log[0].date && r.message == log[0].message
  {
  }

  /** In the same situation the corrected list shows the second message. */
  lemma LatestShowsLastMessage(log: seq<Message>, viewer: int, users: Users, vendors: Vendors)
    requires |log| == 2 && Survives(log[0], viewer, users, vendors) && Survives(log[1], viewer, users, vendors)
    requires KeyOf(log[0]) == KeyOf(log[1]) && log[0].date < log[1].date
    ensures PlannerInboxLatest(log, viewer, users, vendors) != []
    ensures forall r :: r in PlannerInboxLatest(log, viewer, users, vendors) ==>
              r.maxDate == log[1].date && r.message == log[1].message
  {
    var out := PlannerInboxLatest(log, viewer, users, vendors);
    assert KeyOf(log[0]) in Keys(out);
    forall r | r in out
      ensures r.maxDate == log[1].date && r.message == log[1].message
    {
      var i :| 0 <= i < |log| && Survives(log[i], viewer, users, vendors) && RowOf(r, log[i], users, vendors);
      RowOfMessage(r, log[i], users, vendors);
      assert KeyOf(log[1]) == RowKey(r);
      assert r.maxDate >= log[1].date;
      assert i == 1;
    }
  }

  /** `otherUserId` is the larger participant id, so it names the viewer
      whenever the viewer has the larger id: planner 3 writing to vendor 2
      sees `otherUserId == 3` and `userId == 2`. */
  lemma OtherUserIdCanBeViewer(log: seq<Message>, viewer: int, users: Users, vendors: Vendors)
    requires |log| == 1 && log[0].fromUser == viewer && log[0].toUser < viewer
    requires HasVendorRow(log[0].toUser, users, vendors)
    ensures PlannerInbox(log, viewer, users, vendors) != []
    ensures forall r :: r in PlannerInbox(log, viewer, users, vendors) ==>
              r.otherUserId == viewer && r.userId == log[0].toUser
  {
    var out := PlannerInbox(log, viewer, users, vendors);
    assert Survives(log[0], viewer, users, vendors);
    assert KeyOf(log[0]) in Keys(out);
    forall r | r in out
      ensures r.otherUserId == viewer && r.userId == log[0].toUser
    {
      var i :| 0 <= i < |log| && Survives(log[i], viewer, users, vendors) && RowOf(r, log[i], users, vendors);
      RowOfMessage(r, log[i], users, vendors);
    }
  }
}
