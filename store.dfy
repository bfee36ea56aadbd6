/** The hosted database as in-memory tables, with the record shapes of
    convex/schema.ts. A table is the sequence of its rows in insertion order,
    so an index lookup's `.first()` is the lowest matching position and
    `.collect()` without an ordering is the whole sequence. */
module Store {
  import opened Wrappers

  /** Document ids, handed out by a counter. */
  type Id = nat

  /** References into the file store (`Id<"_storage">`). */
  type StorageId = string

  datatype Row<T> = Row(id: Id, doc: T)

  datatype GpsPosition = GpsPosition(lat: real, lng: real)

  datatype Card = Card(
    customId: string,
    task: string,
    editKey: string,
    frontImageId: Option<StorageId>,
    backImageId: Option<StorageId>)

  datatype CardEntry = CardEntry(
    username: string,
    gpsPosition: Option<GpsPosition>,
    location: Option<string>,
    city: Option<string>,
    date: int,
    comment: Option<string>,
    photo: Option<string>,
    instagram: Option<string>,
    interestedInBuying: Option<bool>,
    cardId: Id)

  /** `count` is optional: rows written before the counter existed have none. */
  datatype ArtistSuggestion = ArtistSuggestion(name: string, count: Option<int>, cardEntryId: Id)

  datatype TaskSuggestion = TaskSuggestion(description: string, cardEntryId: Id)

  datatype Message = Message(username: string, content: string, timestamp: int)

  datatype CardSubscriber = CardSubscriber(cardId: Id, email: string, subscribedAt: int)

  datatype GalleryImage = GalleryImage(
    storageId: StorageId,
    title: Option<string>,
    description: Option<string>,
    uploadedAt: int,
    order: Option<int>)

  /** The position of the first element satisfying `p`, as `.first()` on a filtered
      scan or an index range returns the earliest-inserted match. */
  function FindFirst<T>(s: seq<T>, p: T -> bool): (r: Option<nat>)
    ensures r.Some? ==> r.value < |s| && p(s[r.value])
    ensures r.Some? ==> forall j | 0 <= j < r.value :: !p(s[j])
    ensures r.None? <==> forall j | 0 <= j < |s| :: !p(s[j])
  {
    if s == [] then None
    else if p(s[0]) then Some(0)
    else match FindFirst(s[1..], p)
      case None => None
      case Some(i) =>
        assert forall j | 1 <= j < |s| :: s[j] == s[1..][j - 1];
        Some(i + 1)
  }

  ghost predicate IdsBelow<T>(t: seq<Row<T>>, bound: nat) {
    forall k | 0 <= k < |t| :: t[k].id < bound
  }

  /** Deleting a row keeps every remaining id below the bound. */
  lemma RemoveKeepsIdsBelow<T>(t: seq<Row<T>>, k: nat, bound: nat)
    requires k < |t| && IdsBelow(t, bound)
    ensures IdsBelow(t[..k] + t[k + 1..], bound)
  {
    var r := t[..k] + t[k + 1..];
    forall j | 0 <= j < |r| ensures r[j].id < bound {
      if j < k { assert r[j] == t[j]; } else { assert r[j] == t[j + 1]; }
    }
  }

  /** The ids of a table's rows. */
  function IdsOf<T>(t: seq<Row<T>>): set<Id> {
    set k | 0 <= k < |t| :: t[k].id
  }

  /** The whole content of the database, as one value. */
  datatype Tables = Tables(
    cards: seq<Row<Card>>,
    cardEntries: seq<Row<CardEntry>>,
    artistSuggestions: seq<ArtistSuggestion>,
    taskSuggestions: seq<TaskSuggestion>,
    messages: seq<Row<Message>>,
    cardSubscribers: seq<Row<CardSubscriber>>,
    galleryImages: seq<Row<GalleryImage>>,
    nextId: nat)

  class Database {
    var cards: seq<Row<Card>>
    var cardEntries: seq<Row<CardEntry>>
    var artistSuggestions: seq<ArtistSuggestion>
    var taskSuggestions: seq<TaskSuggestion>
    var messages: seq<Row<Message>>
    var cardSubscribers: seq<Row<CardSubscriber>>
    var galleryImages: seq<Row<GalleryImage>>
    /** The id the next insert receives. */
    var nextId: nat

    /** Every id in use is below `nextId`, so an insert's id is fresh. */
    ghost predicate Valid()
      reads this
    {
      && IdsBelow(cards, nextId)
      && IdsBelow(cardEntries, nextId)
      && IdsBelow(messages, nextId)
      && IdsBelow(cardSubscribers, nextId)
      && IdsBelow(galleryImages, nextId)
    }

    /** The current content of every table; a mutation's postcondition states
        its new state as an update of the old one, so nothing else changes. */
    function State(): Tables
      reads this
    {
      Tables(cards, cardEntries, artistSuggestions, taskSuggestions, messages,
             cardSubscribers, galleryImages, nextId)
    }

    constructor ()
      ensures Valid()
      ensures cards == [] && cardEntries == [] && artistSuggestions == [] && taskSuggestions == []
      ensures messages == [] && cardSubscribers == [] && galleryImages == []
    {
      cards, cardEntries, artistSuggestions, taskSuggestions := [], [], [], [];
      messages, cardSubscribers, galleryImages := [], [], [];
      nextId := 0;
    }
  }
}
