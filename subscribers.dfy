/** convex/subscribers.ts: e-mail subscriptions to a card and the notification
    fan-out that mails every subscriber of a card. */
module Subscribers {
  import opened Wrappers
  import opened Store

  /** The `by_cardId_email` lookup: the earliest subscription of `email` to `cardId`. */
  function FindSubscription(rows: seq<Row<CardSubscriber>>, cardId: Id, email: string): (r: Option<nat>)
    ensures r.Some? ==> r.value < |rows| && rows[r.value].doc.cardId == cardId && rows[r.value].doc.email == email
    ensures r.Some? ==> forall j | 0 <= j < r.value :: !(rows[j].doc.cardId == cardId && rows[j].doc.email == email)
    ensures r.None? <==> forall j | 0 <= j < |rows| :: !(rows[j].doc.cardId == cardId && rows[j].doc.email == email)
  {
    FindFirst(rows, (s: Row<CardSubscriber>) => s.doc.cardId == cardId && s.doc.email == email)
  }

  /** How many subscriptions of `email` to `cardId` there are. */
  function PairCount(rows: seq<Row<CardSubscriber>>, cardId: Id, email: string): nat {
    if rows == [] then 0
    else
      var last := rows[|rows| - 1];
      PairCount(rows[..|rows| - 1], cardId, email) + (if last.doc.cardId == cardId && last.doc.email == email then 1 else 0)
  }

  lemma {:induction false} PairCountZero(rows: seq<Row<CardSubscriber>>, cardId: Id, email: string)
    ensures PairCount(rows, cardId, email) == 0 <==> FindSubscription(rows, cardId, email).None?
  {
    if rows != [] {
      var init := rows[..|rows| - 1];
      PairCountZero(init, cardId, email);
      assert forall k | 0 <= k < |init| :: init[k] == rows[k];
    }
  }

  lemma PairCountAppend(rows: seq<Row<CardSubscriber>>, x: Row<CardSubscriber>, cardId: Id, email: string)
    ensures PairCount(rows + [x], cardId, email)
      == PairCount(rows, cardId, email) + (if x.doc.cardId == cardId && x.doc.email == email then 1 else 0)
  {
    assert (rows + [x])[..|rows|] == rows;
  }

  /** Removing the row at `k` takes one away from its pair's count. */
  lemma {:induction false} PairCountRemove(rows: seq<Row<CardSubscriber>>, k: nat, cardId: Id, email: string)
    requires k < |rows|
    ensures PairCount(rows[..k] + rows[k + 1..], cardId, email) == PairCount(rows, cardId, email)
      - (if rows[k].doc.cardId == cardId && rows[k].doc.email == email then 1 else 0)
  {
    var n := |rows|;
    var init := rows[..n - 1];
    if k == n - 1 {
      assert rows[..k] + rows[k + 1..] == init;
    } else {
      assert rows[..k] + rows[k + 1..] == (init[..k] + init[k + 1..]) + [rows[n - 1]];
      PairCountAppend(init[..k] + init[k + 1..], rows[n - 1], cardId, email);
      PairCountRemove(init, k, cardId, email);
    }
  }

  /** `subscribeToCard`: an existing subscription is returned untouched; otherwise
      one is inserted, stamped with `now` (the caller's `Date.now()`). */
  method SubscribeToCard(db: Database, cardId: Id, email: string, now: int) returns (id: Id)
    requires db.Valid()
    modifies db
    ensures db.Valid()
    ensures old(FindSubscription(db.cardSubscribers, cardId, email)).Some? ==>
      var k := old(FindSubscription(db.cardSubscribers, cardId, email)).value;
      id == old(db.cardSubscribers)[k].id && db.State() == old(db.State())
    ensures old(FindSubscription(db.cardSubscribers, cardId, email)).None? ==>
      && id == old(db.nextId)
      && db.State() == old(db.State()).(
           cardSubscribers := old(db.cardSubscribers) + [Row(id, CardSubscriber(cardId, email, now))],
           nextId := old(db.nextId) + 1)
    ensures PairCount(db.cardSubscribers, cardId, email)
      == if old(PairCount(db.cardSubscribers, cardId, email)) == 0 then 1 else old(PairCount(db.cardSubscribers, cardId, email))
  {
    PairCountZero(db.cardSubscribers, cardId, email);
    var existing := FindSubscription(db.cardSubscribers, cardId, email);
    if existing.Some? {
      return db.cardSubscribers[existing.value].id;
    }
    id := db.nextId;
    PairCountAppend(db.cardSubscribers, Row(id, CardSubscriber(cardId, email, now)), cardId, email);
    db.cardSubscribers := db.cardSubscribers + [Row(id, CardSubscriber(cardId, email, now))];
    db.nextId := db.nextId + 1;
  }

  datatype UnsubscribeResult = UnsubscribeResult(success: bool, message: Option<string>)

  /** `unsubscribeFromCard`: deletes the earliest matching subscription, or
      reports that there is none and changes nothing. */
  method UnsubscribeFromCard(db: Database, cardId: Id, email: string) returns (r: UnsubscribeResult)
    requires db.Valid()
    modifies db
    ensures db.Valid()
    ensures r.success <==> old(FindSubscription(db.cardSubscribers, cardId, email)).Some?
    ensures r.success ==> r.message.None?
    ensures r.success ==>
      var k := old(FindSubscription(db.cardSubscribers, cardId, email)).value;
      db.State() == old(db.State()).(cardSubscribers := old(db.cardSubscribers[..k] + db.cardSubscribers[k + 1..]))
    ensures !r.success ==> r.message == Some("Subscription not found") && db.State() == old(db.State())
    ensures PairCount(db.cardSubscribers, cardId, email)
      == if old(PairCount(db.cardSubscribers, cardId, email)) == 0 then 0 else old(PairCount(db.cardSubscribers, cardId, email)) - 1
  {
    PairCountZero(db.cardSubscribers, cardId, email);
    var subscriber := FindSubscription(db.cardSubscribers, cardId, email);
    if subscriber.Some? {
      var k := subscriber.value;
      PairCountRemove(db.cardSubscribers, k, cardId, email);
      RemoveKeepsIdsBelow(db.cardSubscribers, k, db.nextId);
      db.cardSubscribers := db.cardSubscribers[..k] + db.cardSubscribers[k + 1..];
      return UnsubscribeResult(true, None);
    }
    return UnsubscribeResult(false, Some("Subscription not found"));
  }

  /** A first subscription is the one the lookup then finds, and the only one:
      a second `subscribeToCard` returns it again. */
  lemma SubscribeTwiceOnce(rows: seq<Row<CardSubscriber>>, cardId: Id, email: string, id: Id, now: int)
    requires FindSubscription(rows, cardId, email).None?
    ensures FindSubscription(rows + [Row(id, CardSubscriber(cardId, email, now))], cardId, email) == Some(|rows|)
    ensures PairCount(rows + [Row(id, CardSubscriber(cardId, email, now))], cardId, email) == 1
  {
    var rows' := rows + [Row(id, CardSubscriber(cardId, email, now))];
    PairCountZero(rows, cardId, email);
    PairCountAppend(rows, Row(id, CardSubscriber(cardId, email, now)), cardId, email);
    assert forall j | 0 <= j < |rows| :: rows'[j] == rows[j];
  }

  /** Unsubscribing right after a first subscription deletes exactly the row it
      inserted, restoring the table. */
  lemma SubscribeThenUnsubscribe(rows: seq<Row<CardSubscriber>>, cardId: Id, email: string, id: Id, now: int)
    requires FindSubscription(rows, cardId, email).None?
    ensures
      var rows' := rows + [Row(id, CardSubscriber(cardId, email, now))];
      && FindSubscription(rows', cardId, email).Some?
      && var k := FindSubscription(rows', cardId, email).value;
      rows'[..k] + rows'[k + 1..] == rows
  {
    SubscribeTwiceOnce(rows, cardId, email, id, now);
    var rows' := rows + [Row(id, CardSubscriber(cardId, email, now))];
    assert rows'[..|rows|] == rows;
  }

  /** `getCardSubscribers`: the e-mail addresses subscribed to a card, in
      subscription order. */
  function GetCardSubscribers(rows: seq<Row<CardSubscriber>>, cardId: Id): (r: seq<string>)
    ensures |r| <= |rows|
    ensures forall e :: e in r <==> exists k | 0 <= k < |rows| :: rows[k].doc.cardId == cardId && rows[k].doc.email == e
    ensures forall e :: multiset(r)[e] == PairCount(rows, cardId, e)
  {
    if rows == [] then []
    else
      var init, last := rows[..|rows| - 1], rows[|rows| - 1];
      assert forall k | 0 <= k < |init| :: init[k] == rows[k];
      GetCardSubscribers(init, cardId) + (if last.doc.cardId == cardId then [last.doc.email] else [])
  }

  /** The list follows the rows: subscribers of earlier rows come first. */
  lemma {:induction false} SubscribersInRowOrder(a: seq<Row<CardSubscriber>>, b: seq<Row<CardSubscriber>>, cardId: Id)
    ensures GetCardSubscribers(a + b, cardId) == GetCardSubscribers(a, cardId) + GetCardSubscribers(b, cardId)
  {
    if b == [] {
      assert a + b == a;
    } else {
      var init, last := b[..|b| - 1], b[|b| - 1];
      SubscribersInRowOrder(a, init, cardId);
      assert (a + b)[..|a + b| - 1] == a + init;
      assert (a + b)[|a + b| - 1] == last;
    }
  }

  // ---------------------------------------------------------------- notification fan-out

  /** How one call to the mail service ends: an `ok` response, a response that is
      not `ok` (with its body text), or a thrown error (with its message). */
  datatype SendOutcome = Delivered | Rejected(body: string) | Threw(message: string)

  datatype NotificationResult = NotificationResult(
    sent: int,
    total: Option<int>,
    error: Option<string>,
    errors: Option<seq<string>>)

  /** `!apiKey || !apiSecret` is false: both are set and neither is empty. */
  predicate Configured(apiKey: Option<string>, apiSecret: Option<string>) {
    apiKey.Some? && apiKey.value != "" && apiSecret.Some? && apiSecret.value != ""
  }

  /** The error line recorded for one failed send. */
  function FailureLine(email: string, o: SendOutcome): Option<string> {
    match o
    case Delivered => None
    case Rejected(body) => Some("Failed to send to " + email + ": " + body)
    case Threw(message) => Some("Error sending to " + email + ": " + message)
  }

  /** The error lines of the first `|emails|` sends, in order; `outcome(i)` is what
      the `i`-th send ends with. */
  function Failures(emails: seq<string>, outcome: nat -> SendOutcome): seq<string> {
    if emails == [] then []
    else
      var i := |emails| - 1;
      Failures(emails[..i], outcome) + (match FailureLine(emails[i], outcome(i)) case Some(l) => [l] case None => [])
  }

  /** How many of the sends end `ok`. */
  function DeliveredCount(emails: seq<string>, outcome: nat -> SendOutcome): nat {
    if emails == [] then 0
    else
      var i := |emails| - 1;
      DeliveredCount(emails[..i], outcome) + (if outcome(i).Delivered? then 1 else 0)
  }

  /** Every send is either counted as sent or leaves exactly one error line. */
  lemma {:induction false} SentPlusFailed(emails: seq<string>, outcome: nat -> SendOutcome)
    ensures DeliveredCount(emails, outcome) + |Failures(emails, outcome)| == |emails|
  {
    if emails != [] {
      SentPlusFailed(emails[..|emails| - 1], outcome);
    }
  }

  /** `sendNotificationEmails`. The subscriber list is read through
      `getCardSubscribers`; the environment's credentials are parameters, and the
      mail service is `outcome`, consulted once per subscriber in order. */
  method SendNotificationEmails(
    rows: seq<Row<CardSubscriber>>, cardId: Id,
    apiKey: Option<string>, apiSecret: Option<string>,
    outcome: nat -> SendOutcome)
    returns (r: NotificationResult)
    ensures GetCardSubscribers(rows, cardId) == [] ==> r == NotificationResult(0, None, None, None)
    ensures GetCardSubscribers(rows, cardId) != [] && !Configured(apiKey, apiSecret) ==>
      r == NotificationResult(0, None, Some("Mailjet not configured"), None)
    ensures GetCardSubscribers(rows, cardId) != [] && Configured(apiKey, apiSecret) ==>
      var subscribers := GetCardSubscribers(rows, cardId);
      var failures := Failures(subscribers, outcome);
      && r.sent == DeliveredCount(subscribers, outcome)
      && r.total == Some(|subscribers|)
      && r.error.None?
      && r.errors == (if failures == [] then None else Some(failures))
      && r.sent + |failures| == |subscribers|
  {
    var subscribers := GetCardSubscribers(rows, cardId);
    if |subscribers| == 0 {
      return NotificationResult(0, None, None, None);
    }
    if !Configured(apiKey, apiSecret) {
      return NotificationResult(0, None, Some("Mailjet not configured"), None);
    }
    var sentCount := 0;
    var errors: seq<string> := [];
    for i := 0 to |subscribers|
      invariant sentCount == DeliveredCount(subscribers[..i], outcome)
      invariant errors == Failures(subscribers[..i], outcome)
    {
      assert subscribers[..i + 1][..i] == subscribers[..i];
      var email := subscribers[i];
      match outcome(i)
      case Delivered =>
        sentCount := sentCount + 1;
      case Rejected(errorData) =>
        errors := errors + ["Failed to send to " + email + ": " + errorData];
      case Threw(message) =>
        errors := errors + ["Error sending to " + email + ": " + message];
    }
    assert subscribers[..|subscribers|] == subscribers;
    SentPlusFailed(subscribers, outcome);
    r := NotificationResult(sentCount, Some(|subscribers|), None, if |errors| > 0 then Some(errors) else None);
  }
}
