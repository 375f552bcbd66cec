/**
  The data the message routes work on: the `messages` table, the two tables
  the inbox queries join with (`users` and `vendors`), and the conversation
  key the queries group by.
*/
module Messages {

  /** One row of the `messages` table. `date` is the timestamp, kept as a
      number; the database's own date arithmetic is not modelled. */
  datatype Message = Message(fromUser: int, toUser: int, date: int, message: string)

  /** The display columns of one row of the `users` table. */
  datatype User = User(firstName: string, lastName: string, profilePic: string)

  /** The `users` table, keyed by its primary key `id`. */
  type Users = map<int, User>

  /** The `vendors` table: `companyName` keyed by `vendorUserId`. */
  type Vendors = map<int, string>

  /** One row of the thread query, and one element of the client's chat
      state: `dateReceived` is the formatted date. */
  datatype ChatEntry = ChatEntry(toUser: int, fromUser: int, dateReceived: string, message: string)

  /** The key `(GREATEST(fromUser, toUser), LEAST(fromUser, toUser))` the
      planner query groups by: the unordered pair of participants. */
  datatype PairKey = PairKey(hi: int, lo: int)

  function Greatest(a: int, b: int): int { if a >= b then a else b }

  function Least(a: int, b: int): int { if a <= b then a else b }

  /** The conversation key of a message between `a` and `b`: its larger
      participant first. */
  function ConversationKey(a: int, b: int): (k: PairKey)
    ensures k.hi >= k.lo
    ensures (k.hi == a && k.lo == b) || (k.hi == b && k.lo == a)
  {
    PairKey(Greatest(a, b), Least(a, b))
  }

  function KeyOf(m: Message): PairKey
  {
    ConversationKey(m.fromUser, m.toUser)
  }

  /** Two messages share a key exactly when they have the same two
      participants, in either direction. */
  lemma SameKeyIffSamePair(a: int, b: int, c: int, d: int)
    ensures ConversationKey(a, b) == ConversationKey(c, d)
            <==> (a == c && b == d) || (a == d && b == c)
  {
  }

  /** `u` sent or received `m`. */
  predicate Involves(m: Message, u: int)
  {
    m.fromUser == u || m.toUser == u
  }

  /** `m` went from `a` to `b` or from `b` to `a`. */
  predicate Between(m: Message, a: int, b: int)
  {
    (m.fromUser == a && m.toUser == b) || (m.toUser == a && m.fromUser == b)
  }

  lemma BetweenIffKey(m: Message, a: int, b: int)
    ensures Between(m, a, b) <==> KeyOf(m) == ConversationKey(a, b)
  {
    SameKeyIffSamePair(m.fromUser, m.toUser, a, b);
  }
}
