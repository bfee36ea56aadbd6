/** convex/chat.ts: the chat log, written trimmed and read in timestamp order. */
module Chat {
  import opened Store
  import Text
  import Sorting

  /** `sendMessage`: appends one message, username and content trimmed. */
  method SendMessage(db: Database, username: string, content: string, timestamp: int) returns (messageId: Id)
    requires db.Valid()
    modifies db
    ensures db.Valid()
    ensures messageId == old(db.nextId) && messageId !in old(IdsOf(db.messages))
    ensures db.State() == old(db.State()).(
      messages := old(db.messages) + [Row(messageId, Message(Text.Trim(username), Text.Trim(content), timestamp))],
      nextId := old(db.nextId) + 1)
  {
    messageId := db.nextId;
    db.messages := db.messages + [Row(messageId, Message(Text.Trim(username), Text.Trim(content), timestamp))];
    db.nextId := db.nextId + 1;
  }

  /** A stored message has no whitespace at either end of its username and content. */
  predicate Trimmed(m: Message) {
    Text.Trim(m.username) == m.username && Text.Trim(m.content) == m.content
  }

  /** Every message `sendMessage` stores is already trimmed, whatever it was sent. */
  lemma SentMessagesTrimmed(username: string, content: string, timestamp: int)
    ensures Trimmed(Message(Text.Trim(username), Text.Trim(content), timestamp))
  {
    Text.TrimIdempotent(username);
    Text.TrimIdempotent(content);
  }

  /** The messages with a timestamp of at least 0, in insertion order. */
  function NonNegative(rows: seq<Row<Message>>): (r: seq<Row<Message>>)
    ensures forall m :: m in r <==> m in rows && m.doc.timestamp >= 0
  {
    if rows == [] then []
    else
      var init, last := rows[..|rows| - 1], rows[|rows| - 1];
      assert rows == init + [last];
      NonNegative(init) + (if last.doc.timestamp >= 0 then [last] else [])
  }

  /** `getMessages`: the `by_timestamp` range `timestamp >= 0`, ascending; rows with
      equal timestamps keep their insertion order. */
  function GetMessages(rows: seq<Row<Message>>): (r: seq<Row<Message>>)
    ensures multiset(r) == multiset(NonNegative(rows))
    ensures forall i, j | 0 <= i < j < |r| :: r[i].doc.timestamp <= r[j].doc.timestamp
    ensures forall k | 0 <= k < |r| :: r[k].doc.timestamp >= 0
  {
    var found := NonNegative(rows);
    var r := Sorting.SortByKey(found, (m: Row<Message>) => m.doc.timestamp);
    forall k | 0 <= k < |r| ensures r[k].doc.timestamp >= 0 {
      Sorting.SameElements(r, found, r[k]);
    }
    r
  }

  /** The read returns exactly the messages with a non-negative timestamp. */
  lemma MessagesListed(rows: seq<Row<Message>>, m: Row<Message>)
    ensures m in GetMessages(rows) <==> m in rows && m.doc.timestamp >= 0
  {
    Sorting.SameElements(GetMessages(rows), NonNegative(rows), m);
  }
}
