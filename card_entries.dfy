/** convex/cardEntries.ts: card lookup and creation, entry creation with the
    artist-suggestion counter and the task suggestions, and the two reads that
    aggregate artist suggestions and list a card's entries. */
module CardEntries {
  import opened Wrappers
  import opened Store
  import Text
  import Sorting

  // ---------------------------------------------------------------- cards

  /** `getCardByCustomId`: the earliest card with that `customId`, if any. */
  function GetCardByCustomId(cards: seq<Row<Card>>, customId: string): (r: Option<Row<Card>>)
    ensures r.Some? <==> exists k | 0 <= k < |cards| :: cards[k].doc.customId == customId
    ensures r.Some? ==> r.value.doc.customId == customId
    ensures r.Some? ==> exists k | 0 <= k < |cards| ::
      (cards[k] == r.value && forall j | 0 <= j < k :: cards[j].doc.customId != customId)
  {
    match FindFirst(cards, (c: Row<Card>) => c.doc.customId == customId)
    case Some(k) => Some(cards[k])
    case None => None
  }

  /** `getAllCards`: every card, in insertion order. */
  function GetAllCards(cards: seq<Row<Card>>): (r: seq<Row<Card>>)
    ensures |r| == |cards|
    ensures forall c :: c in r <==> c in cards
  {
    cards
  }

  datatype CreatedCard = CreatedCard(cardId: Id, editKey: string)

  /** The message `createCard` throws for a taken `customId`. */
  function DuplicateCardMessage(customId: string): string {
    "Card with customId \"" + customId + "\" already exists"
  }

  /** `createCard`. `editKey` stands for `Math.random().toString().slice(2, 20)`,
      which this model leaves arbitrary. */
  method CreateCard(db: Database, customId: string, task: string, editKey: string)
    returns (r: Result<CreatedCard>)
    requires db.Valid()
    modifies db
    ensures db.Valid()
    ensures r.Err? <==> old(GetCardByCustomId(db.cards, customId)).Some?
    ensures r.Err? ==> r.message == DuplicateCardMessage(customId) && db.State() == old(db.State())
    ensures r.Ok? ==> r.value == CreatedCard(old(db.nextId), editKey)
    ensures r.Ok? ==> db.State() == old(db.State()).(
      cards := old(db.cards) + [Row(r.value.cardId, Card(customId, task, editKey, None, None))],
      nextId := old(db.nextId) + 1)
    ensures r.Ok? ==> r.value.cardId !in old(IdsOf(db.cards))
    ensures r.Ok? ==>
      GetCardByCustomId(db.cards, customId) == Some(Row(r.value.cardId, Card(customId, task, editKey, None, None)))
  {
    var existing := GetCardByCustomId(db.cards, customId);
    if existing.Some? {
      return Err(DuplicateCardMessage(customId));
    }
    var cardId := db.nextId;
    ghost var before := db.cards;
    db.cards := db.cards + [Row(cardId, Card(customId, task, editKey, None, None))];
    db.nextId := db.nextId + 1;
    assert forall k | 0 <= k < |before| :: db.cards[k] == before[k];
    assert forall k | 0 <= k < |before| :: db.cards[k].doc.customId != customId;
    assert db.cards[|before|].doc.customId == customId;
    r := Ok(CreatedCard(cardId, editKey));
  }

  // ---------------------------------------------------------------- entries

  /** The arguments `createCardEntry` accepts. */
  datatype EntryArgs = EntryArgs(
    cardId: Id,
    username: string,
    gpsPosition: Option<GpsPosition>,
    location: Option<string>,
    city: Option<string>,
    date: int,
    comment: Option<string>,
    artistSuggestions: Option<seq<string>>,
    taskSuggestions: Option<seq<string>>)

  /** The entry document inserted: the arguments as given, nothing trimmed, and no
      photo, Instagram handle or buying interest. */
  function EntryDoc(a: EntryArgs): (e: CardEntry)
    ensures e.cardId == a.cardId && e.username == a.username && e.date == a.date
    ensures e.photo.None? && e.instagram.None? && e.interestedInBuying.None?
  {
    CardEntry(a.username, a.gpsPosition, a.location, a.city, a.date, a.comment, None, None, None, a.cardId)
  }

  /** `count ?? 1`. */
  function CountOr1(c: Option<int>): int {
    c.GetOr(1)
  }

  /** The earliest artist row named `name` (the `by_name` index lookup). */
  function FirstNamed(rows: seq<ArtistSuggestion>, name: string): (r: Option<nat>)
    ensures r.Some? ==> r.value < |rows| && rows[r.value].name == name
    ensures r.Some? ==> forall j | 0 <= j < r.value :: rows[j].name != name
    ensures r.None? <==> forall j | 0 <= j < |rows| :: rows[j].name != name
  {
    FindFirst(rows, (s: ArtistSuggestion) => s.name == name)
  }

  /** One turn of the artist loop of `createCardEntry`: a blank name is skipped; a
      name already present bumps the earliest row with it; any other name gets a
      new row with count 1 pointing at the new entry. */
  function RecordArtist(rows: seq<ArtistSuggestion>, name: string, entryId: Id): (r: seq<ArtistSuggestion>)
    ensures Text.Trim(name) == "" ==> r == rows
    ensures Text.Trim(name) != "" && FirstNamed(rows, Text.Trim(name)).None? ==>
      r == rows + [ArtistSuggestion(Text.Trim(name), Some(1), entryId)]
    ensures Text.Trim(name) != "" && FirstNamed(rows, Text.Trim(name)).Some? ==>
      var i := FirstNamed(rows, Text.Trim(name)).value;
      && |r| == |rows|
      && r[i].name == rows[i].name
      && r[i].cardEntryId == rows[i].cardEntryId
      && r[i].count == Some(CountOr1(rows[i].count) + 1)
      && forall j | 0 <= j < |rows| && j != i :: r[j] == rows[j]
  {
    var trimmed := Text.Trim(name);
    if trimmed == "" then rows
    else match FirstNamed(rows, trimmed)
      case Some(i) => rows[i := rows[i].(count := Some(CountOr1(rows[i].count) + 1))]
      case None => rows + [ArtistSuggestion(trimmed, Some(1), entryId)]
  }

  /** The artist loop over a whole list of names, in order. */
  function RecordArtists(rows: seq<ArtistSuggestion>, names: seq<string>, entryId: Id): seq<ArtistSuggestion>
  {
    if names == [] then rows
    else RecordArtist(RecordArtists(rows, names[..|names| - 1], entryId), names[|names| - 1], entryId)
  }

  /** The task rows the task loop of `createCardEntry` appends: one trimmed row per
      non-blank description, in order, with no deduplication. */
  function NewTaskRows(descriptions: seq<string>, entryId: Id): (r: seq<TaskSuggestion>)
    ensures |r| == NonBlank(descriptions)
    ensures forall k | 0 <= k < |r| :: r[k].cardEntryId == entryId
    ensures forall k | 0 <= k < |r| :: r[k].description != "" && Text.Trim(r[k].description) == r[k].description
  {
    if descriptions == [] then []
    else
      var init, d := descriptions[..|descriptions| - 1], descriptions[|descriptions| - 1];
      var t := Text.Trim(d);
      Text.TrimIdempotent(d);
      NewTaskRows(init, entryId) + (if t != "" then [TaskSuggestion(t, entryId)] else [])
  }

  /** How many of `s` are not blank. */
  function NonBlank(s: seq<string>): nat {
    if s == [] then 0
    else NonBlank(s[..|s| - 1]) + (if Text.Trim(s[|s| - 1]) != "" then 1 else 0)
  }

  /** `createCardEntry`. It does not look the card up, subscribe anyone or schedule
      notifications: it inserts the entry and runs the two suggestion loops. */
  method CreateCardEntry(db: Database, args: EntryArgs) returns (entryId: Id)
    requires db.Valid()
    modifies db
    ensures db.Valid()
    ensures entryId == old(db.nextId) && entryId !in old(IdsOf(db.cardEntries))
    ensures db.State() == old(db.State()).(
      cardEntries := old(db.cardEntries) + [Row(entryId, EntryDoc(args))],
      artistSuggestions := RecordArtists(old(db.artistSuggestions), args.artistSuggestions.GetOr([]), entryId),
      taskSuggestions := old(db.taskSuggestions) + NewTaskRows(args.taskSuggestions.GetOr([]), entryId),
      nextId := old(db.nextId) + 1)
  {
    entryId := db.nextId;
    db.cardEntries := db.cardEntries + [Row(entryId, EntryDoc(args))];
    db.nextId := db.nextId + 1;
    assert db.Valid();
    ghost var inserted := db.State();
    var names := args.artistSuggestions.GetOr([]);
    if args.artistSuggestions.Some? && |args.artistSuggestions.value| > 0 {
      RecordArtistSuggestions(db, args.artistSuggestions.value, entryId);
    } else {
      assert RecordArtists(db.artistSuggestions, names, entryId) == db.artistSuggestions;
    }
    assert db.State() == inserted.(artistSuggestions := RecordArtists(inserted.artistSuggestions, names, entryId));
    ghost var recorded := db.State();
    var descriptions := args.taskSuggestions.GetOr([]);
    if args.taskSuggestions.Some? && |args.taskSuggestions.value| > 0 {
      RecordTaskSuggestions(db, args.taskSuggestions.value, entryId);
    } else {
      assert NewTaskRows(descriptions, entryId) == [];
    }
    assert db.State() == recorded.(taskSuggestions := recorded.taskSuggestions + NewTaskRows(descriptions, entryId));
  }

  /** The artist loop of `createCardEntry`. */
  method RecordArtistSuggestions(db: Database, names: seq<string>, entryId: Id)
    modifies db
    ensures db.State() == old(db.State()).(
      artistSuggestions := RecordArtists(old(db.artistSuggestions), names, entryId))
  {
    for i := 0 to |names|
      invariant db.State() == old(db.State()).(artistSuggestions := db.artistSuggestions)
      invariant db.artistSuggestions == RecordArtists(old(db.artistSuggestions), names[..i], entryId)
    {
      assert names[..i + 1][..i] == names[..i];
      var trimmed := Text.Trim(names[i]);
      if trimmed != "" {
        var existing := FirstNamed(db.artistSuggestions, trimmed);
        if existing.Some? {
          var k := existing.value;
          var currentCount := db.artistSuggestions[k].count.GetOr(1);
          db.artistSuggestions := db.artistSuggestions[k := db.artistSuggestions[k].(count := Some(currentCount + 1))];
        } else {
          db.artistSuggestions := db.artistSuggestions + [ArtistSuggestion(trimmed, Some(1), entryId)];
        }
      }
    }
    assert names[..|names|] == names;
  }

  /** The task loop of `createCardEntry`. */
  method RecordTaskSuggestions(db: Database, descriptions: seq<string>, entryId: Id)
    modifies db
    ensures db.State() == old(db.State()).(
      taskSuggestions := old(db.taskSuggestions) + NewTaskRows(descriptions, entryId))
  {
    for i := 0 to |descriptions|
      invariant db.State() == old(db.State()).(taskSuggestions := db.taskSuggestions)
      invariant db.taskSuggestions == old(db.taskSuggestions) + NewTaskRows(descriptions[..i], entryId)
    {
      assert descriptions[..i + 1][..i] == descriptions[..i];
      if Text.Trim(descriptions[i]) != "" {
        db.taskSuggestions := db.taskSuggestions + [TaskSuggestion(Text.Trim(descriptions[i]), entryId)];
      }
    }
    assert descriptions[..|descriptions|] == descriptions;
  }

  // ---------------------------------------------------------------- counting

  /** The number of mentions of `name` among `names`, after trimming. */
  function Mentions(names: seq<string>, name: string): nat {
    if names == [] then 0
    else Mentions(names[..|names| - 1], name) + (if Text.Trim(names[|names| - 1]) == name then 1 else 0)
  }

  /** The number of artist rows named `name`. */
  function RowsNamed(rows: seq<ArtistSuggestion>, name: string): nat {
    if rows == [] then 0
    else RowsNamed(rows[..|rows| - 1], name) + (if rows[|rows| - 1].name == name then 1 else 0)
  }

  /** The sum of `count ?? 1` over the artist rows named `name`: the count the
      aggregation read reports for it. */
  function NameTotal(rows: seq<ArtistSuggestion>, name: string): int {
    if rows == [] then 0
    else NameTotal(rows[..|rows| - 1], name) + (if rows[|rows| - 1].name == name then CountOr1(rows[|rows| - 1].count) else 0)
  }

  predicate HasName(rows: seq<ArtistSuggestion>, name: string) {
    exists k | 0 <= k < |rows| :: rows[k].name == name
  }

  lemma {:induction false} RowsNamedPositive(rows: seq<ArtistSuggestion>, name: string)
    ensures RowsNamed(rows, name) > 0 <==> HasName(rows, name)
  {
    if rows != [] {
      var init := rows[..|rows| - 1];
      RowsNamedPositive(init, name);
      assert forall k | 0 <= k < |init| :: init[k] == rows[k];
      if HasName(rows, name) && rows[|rows| - 1].name != name {
        var k :| 0 <= k < |rows| && rows[k].name == name;
        assert init[k].name == name;
      }
    }
  }

  /** Changing the count of one row moves the name's total by the difference. */
  lemma {:induction false} UpdateTotals(rows: seq<ArtistSuggestion>, i: nat, c: Option<int>, name: string)
    requires i < |rows|
    ensures RowsNamed(rows[i := rows[i].(count := c)], name) == RowsNamed(rows, name)
    ensures NameTotal(rows[i := rows[i].(count := c)], name) == NameTotal(rows, name)
      + (if rows[i].name == name then CountOr1(c) - CountOr1(rows[i].count) else 0)
  {
    var rows' := rows[i := rows[i].(count := c)];
    var n := |rows|;
    if i == n - 1 {
      assert rows'[..n - 1] == rows[..n - 1];
    } else {
      assert rows'[..n - 1] == rows[..n - 1][i := rows[i].(count := c)];
      UpdateTotals(rows[..n - 1], i, c, name);
    }
  }

  /** Appending a row adds its `count ?? 1` to its name's total. */
  lemma AppendTotals(rows: seq<ArtistSuggestion>, x: ArtistSuggestion, name: string)
    ensures RowsNamed(rows + [x], name) == RowsNamed(rows, name) + (if x.name == name then 1 else 0)
    ensures NameTotal(rows + [x], name) == NameTotal(rows, name) + (if x.name == name then CountOr1(x.count) else 0)
  {
    assert (rows + [x])[..|rows|] == rows;
  }

  /** One turn of the artist loop adds exactly one to the total of the trimmed
      name and leaves every other total alone; the rows named `name` stay as many,
      except that a first mention creates one. */
  lemma {:induction false} RecordArtistCounts(rows: seq<ArtistSuggestion>, n: string, entryId: Id, name: string)
    ensures NameTotal(RecordArtist(rows, n, entryId), name)
      == NameTotal(rows, name) + (if Text.Trim(n) == name && name != "" then 1 else 0)
    ensures RowsNamed(RecordArtist(rows, n, entryId), name)
      == if Text.Trim(n) == name && name != "" && RowsNamed(rows, name) == 0 then 1 else RowsNamed(rows, name)
  {
    var t := Text.Trim(n);
    if t != "" {
      RowsNamedPositive(rows, t);
      var f := FirstNamed(rows, t);
      if f.Some? {
        var i := f.value;
        var c := Some(CountOr1(rows[i].count) + 1);
        assert RecordArtist(rows, n, entryId) == rows[i := rows[i].(count := c)];
        UpdateTotals(rows, i, c, name);
        assert HasName(rows, t);
      } else {
        assert RecordArtist(rows, n, entryId) == rows + [ArtistSuggestion(t, Some(1), entryId)];
        AppendTotals(rows, ArtistSuggestion(t, Some(1), entryId), name);
      }
    }
  }

  /** Counting property of the artist loop: every non-blank trimmed mention adds
      exactly one to that name's total, whether it bumps a row or creates one,
      repeats inside one submission included. */
  lemma {:induction false} RecordArtistsCounts(rows: seq<ArtistSuggestion>, names: seq<string>, entryId: Id, name: string)
    requires name != ""
    ensures NameTotal(RecordArtists(rows, names, entryId), name) == NameTotal(rows, name) + Mentions(names, name)
    ensures RowsNamed(RecordArtists(rows, names, entryId), name)
      == if RowsNamed(rows, name) == 0 && Mentions(names, name) > 0 then 1 else RowsNamed(rows, name)
  {
    if names != [] {
      var init := names[..|names| - 1];
      RecordArtistsCounts(rows, init, entryId, name);
      RecordArtistCounts(RecordArtists(rows, init, entryId), names[|names| - 1], entryId, name);
    }
  }

  /** Blank names add nothing at any name. */
  lemma {:induction false} RecordArtistsNoBlankRows(rows: seq<ArtistSuggestion>, names: seq<string>, entryId: Id)
    ensures RowsNamed(RecordArtists(rows, names, entryId), "") == RowsNamed(rows, "")
  {
    if names != [] {
      var init := names[..|names| - 1];
      RecordArtistsNoBlankRows(rows, init, entryId);
      RecordArtistCounts(RecordArtists(rows, init, entryId), names[|names| - 1], entryId, "");
    }
  }

  /** The total of a name with a single row is that row's `count ?? 1`. */
  lemma {:induction false} SingleRowTotal(rows: seq<ArtistSuggestion>, name: string, k: nat)
    requires k < |rows| && rows[k].name == name && RowsNamed(rows, name) == 1
    ensures NameTotal(rows, name) == CountOr1(rows[k].count)
  {
    var init := rows[..|rows| - 1];
    if k == |rows| - 1 {
      RowsNamedPositive(init, name);
      NoRowsNoTotal(init, name);
    } else {
      assert init[k] == rows[k];
      if rows[|rows| - 1].name == name {
        RowsNamedPositive(init, name);
        assert false;
      }
      SingleRowTotal(init, name, k);
    }
  }

  lemma {:induction false} NoRowsNoTotal(rows: seq<ArtistSuggestion>, name: string)
    requires !HasName(rows, name)
    ensures NameTotal(rows, name) == 0
  {
    if rows != [] {
      var init := rows[..|rows| - 1];
      assert forall k | 0 <= k < |init| :: init[k] == rows[k];
      NoRowsNoTotal(init, name);
    }
  }

  /** Every row named `name` has its count recorded (it is not a legacy row). */
  predicate CountsRecorded(rows: seq<ArtistSuggestion>, name: string) {
    forall k | 0 <= k < |rows| && rows[k].name == name :: rows[k].count.Some?
  }

  lemma {:induction false} RecordArtistsRecordsCounts(rows: seq<ArtistSuggestion>, names: seq<string>, entryId: Id, name: string)
    requires CountsRecorded(rows, name)
    ensures CountsRecorded(RecordArtists(rows, names, entryId), name)
  {
    if names != [] {
      RecordArtistsRecordsCounts(rows, names[..|names| - 1], entryId, name);
    }
  }

  /** Starting from no row for a name, N mentions of it leave exactly one row for
      it, with count N. */
  lemma FreshNameCounter(rows: seq<ArtistSuggestion>, names: seq<string>, entryId: Id, name: string)
    requires name != "" && !HasName(rows, name) && Mentions(names, name) > 0
    ensures RowsNamed(RecordArtists(rows, names, entryId), name) == 1
    ensures forall k | 0 <= k < |RecordArtists(rows, names, entryId)| && RecordArtists(rows, names, entryId)[k].name == name ::
      RecordArtists(rows, names, entryId)[k].count == Some(Mentions(names, name))
  {
    var r := RecordArtists(rows, names, entryId);
    RowsNamedPositive(rows, name);
    NoRowsNoTotal(rows, name);
    RecordArtistsCounts(rows, names, entryId, name);
    assert RowsNamed(r, name) == 1 && NameTotal(r, name) == Mentions(names, name);
    assert CountsRecorded(rows, name);
    RecordArtistsRecordsCounts(rows, names, entryId, name);
    forall k | 0 <= k < |r| && r[k].name == name ensures r[k].count == Some(Mentions(names, name)) {
      SingleRowTotal(r, name, k);
      assert r[k].count.Some? && CountOr1(r[k].count) == Mentions(names, name);
    }
  }

  /** At most one row per name. */
  predicate UniqueNames(rows: seq<ArtistSuggestion>) {
    forall i, j | 0 <= i < j < |rows| :: rows[i].name != rows[j].name
  }

  /** Trimming a name before the loop sees it changes nothing: " A " and "A"
      land on the same row. */
  lemma TrimmedNamesShareRow(rows: seq<ArtistSuggestion>, name: string, entryId: Id)
    ensures RecordArtist(rows, name, entryId) == RecordArtist(rows, Text.Trim(name), entryId)
  {
    Text.TrimIdempotent(name);
  }

  /** The artist loop keeps the table free of duplicate names: a row is only
      added for a name no row has. */
  lemma {:induction false} RecordArtistsKeepsNamesUnique(rows: seq<ArtistSuggestion>, names: seq<string>, entryId: Id)
    requires UniqueNames(rows)
    ensures UniqueNames(RecordArtists(rows, names, entryId))
  {
    if names != [] {
      var init := names[..|names| - 1];
      RecordArtistsKeepsNamesUnique(rows, init, entryId);
      var before := RecordArtists(rows, init, entryId);
      var after := RecordArtist(before, names[|names| - 1], entryId);
      forall i, j | 0 <= i < j < |after| ensures after[i].name != after[j].name {
        if j == |before| {
          assert after[i] == before[i];
        } else {
          assert after[i].name == before[i].name && after[j].name == before[j].name;
        }
      }
    }
  }

  // ---------------------------------------------------------------- aggregation

  /** A row of `getAllArtistSuggestions`' result. */
  datatype ArtistCount = ArtistCount(name: string, count: int)

  /** The names of `rows` in order of first appearance: the key order of the
      JavaScript `Map` the aggregation fills. */
  function DistinctNames(rows: seq<ArtistSuggestion>): seq<string> {
    if rows == [] then []
    else
      var init := DistinctNames(rows[..|rows| - 1]);
      if rows[|rows| - 1].name in init then init else init + [rows[|rows| - 1].name]
  }

  lemma {:induction false} DistinctNamesSound(rows: seq<ArtistSuggestion>)
    ensures Sorting.Distinct(DistinctNames(rows))
    ensures forall n :: n in DistinctNames(rows) <==> HasName(rows, n)
  {
    if rows != [] {
      var init := rows[..|rows| - 1];
      DistinctNamesSound(init);
      assert forall k | 0 <= k < |init| :: init[k] == rows[k];
      forall n ensures HasName(rows, n) ==> n in DistinctNames(rows) {
        if HasName(rows, n) && rows[|rows| - 1].name != n {
          var k :| 0 <= k < |rows| && rows[k].name == n;
          assert init[k].name == n;
        }
      }
    }
  }

  lemma TotalStep(rows: seq<ArtistSuggestion>, i: nat, name: string)
    requires i < |rows|
    ensures NameTotal(rows[..i + 1], name) == NameTotal(rows[..i], name) + (if rows[i].name == name then CountOr1(rows[i].count) else 0)
  {
    assert rows[..i + 1][..i] == rows[..i];
  }

  /** The aggregation before sorting: each distinct name, in first-appearance
      order, with its total. */
  function CountsOf(rows: seq<ArtistSuggestion>): (r: seq<ArtistCount>)
    ensures |r| == |DistinctNames(rows)|
  {
    var names := DistinctNames(rows);
    seq(|names|, k requires 0 <= k < |names| => ArtistCount(names[k], NameTotal(rows, names[k])))
  }

  /** The grouping loop of `getAllArtistSuggestions`: `keys` are the map's keys in
      insertion order and `totals` the sums. */
  method TotalsByName(rows: seq<ArtistSuggestion>) returns (keys: seq<string>, totals: map<string, int>)
    ensures keys == DistinctNames(rows)
    ensures forall n :: n in totals <==> n in keys
    ensures forall n | n in totals :: totals[n] == NameTotal(rows, n)
  {
    keys, totals := [], map[];
    for i := 0 to |rows|
      invariant keys == DistinctNames(rows[..i])
      invariant forall n :: n in totals <==> n in keys
      invariant forall n | n in totals :: totals[n] == NameTotal(rows[..i], n)
    {
      assert rows[..i + 1][..i] == rows[..i];
      var suggestion := rows[i];
      // `artistMap.get(name) || 0`
      var currentCount := if suggestion.name in totals then totals[suggestion.name] else 0;
      var suggestionCount := suggestion.count.GetOr(1);
      if suggestion.name !in totals {
        DistinctNamesSound(rows[..i]);
        NoRowsNoTotal(rows[..i], suggestion.name);
        keys := keys + [suggestion.name];
      }
      totals := totals[suggestion.name := currentCount + suggestionCount];
      forall n | n in totals ensures totals[n] == NameTotal(rows[..i + 1], n) {
        TotalStep(rows, i, n);
      }
    }
    assert rows[..|rows|] == rows;
  }

  /** Any reordering of the aggregation has one row per name, each with its total. */
  lemma CountsPermutation(rows: seq<ArtistSuggestion>, r: seq<ArtistCount>)
    requires multiset(r) == multiset(CountsOf(rows))
    ensures forall k | 0 <= k < |r| :: r[k].count == NameTotal(rows, r[k].name)
    ensures forall i, j | 0 <= i < j < |r| :: r[i].name != r[j].name
    ensures forall n :: (exists k | 0 <= k < |r| :: r[k].name == n) <==> HasName(rows, n)
  {
    var c := CountsOf(rows);
    DistinctNamesSound(rows);
    assert Sorting.Distinct(c) by {
      forall i, j | 0 <= i < j < |c| ensures c[i] != c[j] {
        assert c[i].name == DistinctNames(rows)[i];
      }
    }
    Sorting.PermutationDistinct(r, c);
    forall k | 0 <= k < |r| ensures r[k] in c {
      Sorting.SameElements(r, c, r[k]);
    }
    forall i, j | 0 <= i < j < |r| ensures r[i].name != r[j].name {
      assert r[i] in c && r[j] in c;
    }
    forall n | HasName(rows, n) ensures exists k | 0 <= k < |r| :: r[k].name == n {
      var a :| 0 <= a < |c| && DistinctNames(rows)[a] == n;
      Sorting.SameElements(r, c, c[a]);
      var k :| 0 <= k < |r| && r[k] == c[a];
    }
    forall n | exists k | 0 <= k < |r| :: r[k].name == n ensures HasName(rows, n) {
      var k :| 0 <= k < |r| && r[k].name == n;
      assert r[k] in c;
    }
  }

  /** `getAllArtistSuggestions`: one row per distinct name, carrying the sum of
      `count ?? 1` over that name's rows, ordered by count with the largest first. */
  method GetAllArtistSuggestions(rows: seq<ArtistSuggestion>) returns (r: seq<ArtistCount>)
    ensures |r| == |DistinctNames(rows)|
    ensures multiset(r) == multiset(CountsOf(rows))
    ensures forall i, j | 0 <= i < j < |r| :: r[i].count >= r[j].count
    ensures forall k | 0 <= k < |r| :: r[k].count == NameTotal(rows, r[k].name)
    ensures forall i, j | 0 <= i < j < |r| :: r[i].name != r[j].name
    ensures forall n :: (exists k | 0 <= k < |r| :: r[k].name == n) <==> HasName(rows, n)
  {
    var keys, totals := TotalsByName(rows);
    var entries := seq(|keys|, k requires 0 <= k < |keys| => ArtistCount(keys[k], totals[keys[k]]));
    assert entries == CountsOf(rows);
    r := Sorting.SortByKey(entries, (a: ArtistCount) => -a.count);
    CountsPermutation(rows, r);
  }

  // ---------------------------------------------------------------- a card's entries

  /** An entry of `getCardEntriesByCardId`'s result: the entry and the names and
      descriptions of the suggestion rows pointing at it. */
  datatype EntryWithSuggestions = EntryWithSuggestions(
    entry: Row<CardEntry>,
    artistSuggestions: seq<string>,
    taskSuggestions: seq<string>)

  /** The entries of one card, in insertion order. */
  function EntriesOfCard(entries: seq<Row<CardEntry>>, cardId: Id): (r: seq<Row<CardEntry>>)
    ensures forall e :: e in r <==> e in entries && e.doc.cardId == cardId
  {
    if entries == [] then []
    else
      var init, last := entries[..|entries| - 1], entries[|entries| - 1];
      assert entries == init + [last];
      EntriesOfCard(init, cardId) + (if last.doc.cardId == cardId then [last] else [])
  }

  /** The names of the artist rows pointing at an entry, in insertion order. */
  function ArtistNamesOf(rows: seq<ArtistSuggestion>, entryId: Id): (r: seq<string>)
    ensures forall n :: n in r <==> exists k | 0 <= k < |rows| :: rows[k].name == n && rows[k].cardEntryId == entryId
  {
    if rows == [] then []
    else
      var init, last := rows[..|rows| - 1], rows[|rows| - 1];
      assert forall k | 0 <= k < |init| :: init[k] == rows[k];
      ArtistNamesOf(init, entryId) + (if last.cardEntryId == entryId then [last.name] else [])
  }

  /** The descriptions of the task rows pointing at an entry, in insertion order. */
  function TaskDescriptionsOf(rows: seq<TaskSuggestion>, entryId: Id): (r: seq<string>)
    ensures |r| <= |rows|
  {
    if rows == [] then []
    else
      var init, last := rows[..|rows| - 1], rows[|rows| - 1];
      TaskDescriptionsOf(init, entryId) + (if last.cardEntryId == entryId then [last.description] else [])
  }

  function Reverse<T>(s: seq<T>): (r: seq<T>)
    ensures |r| == |s| && multiset(r) == multiset(s)
  {
    if s == [] then []
    else
      assert s == [s[0]] + s[1..];
      Reverse(s[1..]) + [s[0]]
  }

  /** The entry rows of a result of `getCardEntriesByCardId`. */
  function EntryRows(r: seq<EntryWithSuggestions>): (rows: seq<Row<CardEntry>>)
    ensures |rows| == |r| && forall k | 0 <= k < |r| :: rows[k] == r[k].entry
  {
    seq(|r|, k requires 0 <= k < |r| => r[k].entry)
  }

  /** The newest-first sort key of an entry. */
  function DateDescending(e: Row<CardEntry>): int {
    -e.doc.date
  }

  /** Each entry of `sorted` with the suggestions pointing at it. */
  function AttachSuggestions(t: Tables, sorted: seq<Row<CardEntry>>): (r: seq<EntryWithSuggestions>)
    ensures EntryRows(r) == sorted
    ensures forall k | 0 <= k < |r| ::
      && r[k].artistSuggestions == ArtistNamesOf(t.artistSuggestions, r[k].entry.id)
      && r[k].taskSuggestions == TaskDescriptionsOf(t.taskSuggestions, r[k].entry.id)
  {
    seq(|sorted|, k requires 0 <= k < |sorted| =>
      EntryWithSuggestions(sorted[k], ArtistNamesOf(t.artistSuggestions, sorted[k].id),
                           TaskDescriptionsOf(t.taskSuggestions, sorted[k].id)))
  }

  /** Entries ordered by non-increasing `date`. */
  predicate LatestFirst(rows: seq<Row<CardEntry>>) {
    forall i, j | 0 <= i < j < |rows| :: rows[i].doc.date >= rows[j].doc.date
  }

  lemma SortedLatestFirst(rows: seq<Row<CardEntry>>)
    requires Sorting.SortedBy(rows, DateDescending)
    ensures LatestFirst(rows)
  {
    forall i, j | 0 <= i < j < |rows| ensures rows[i].doc.date >= rows[j].doc.date {
      assert DateDescending(rows[i]) <= DateDescending(rows[j]);
    }
  }

  /** `getCardEntriesByCardId`: the card's entries scanned newest first, then
      sorted by `date` with the latest first, each with its suggestions. */
  function GetCardEntriesByCardId(t: Tables, cardId: Id): (r: seq<EntryWithSuggestions>)
    ensures multiset(EntryRows(r)) == multiset(EntriesOfCard(t.cardEntries, cardId))
    ensures LatestFirst(EntryRows(r))
    ensures forall k | 0 <= k < |r| ::
      && r[k].artistSuggestions == ArtistNamesOf(t.artistSuggestions, r[k].entry.id)
      && r[k].taskSuggestions == TaskDescriptionsOf(t.taskSuggestions, r[k].entry.id)
  {
    var mine := EntriesOfCard(t.cardEntries, cardId);
    var sorted := Sorting.SortByKey(Reverse(mine), DateDescending);
    SortedLatestFirst(sorted);
    AttachSuggestions(t, sorted)
  }

  /** The result lists exactly the card's entries. */
  lemma CardEntriesListed(t: Tables, cardId: Id, e: Row<CardEntry>)
    ensures e in EntryRows(GetCardEntriesByCardId(t, cardId)) <==> e in t.cardEntries && e.doc.cardId == cardId
  {
    Sorting.SameElements(EntryRows(GetCardEntriesByCardId(t, cardId)), EntriesOfCard(t.cardEntries, cardId), e);
  }

  /** Some artist row named `name` points at the entry. */
  predicate LinksTo(rows: seq<ArtistSuggestion>, name: string, entryId: Id) {
    exists k | 0 <= k < |rows| :: rows[k].name == name && rows[k].cardEntryId == entryId
  }

  lemma RecordArtistLinks(rows: seq<ArtistSuggestion>, m: string, entryId: Id, name: string)
    ensures LinksTo(RecordArtist(rows, m, entryId), name, entryId)
      <==> LinksTo(rows, name, entryId) || (Text.Trim(m) == name && name != "" && !HasName(rows, name))
  {
    var after := RecordArtist(rows, m, entryId);
    var t := Text.Trim(m);
    if t != "" && FirstNamed(rows, t).Some? {
      var i := FirstNamed(rows, t).value;
      assert forall k | 0 <= k < |rows| :: after[k].name == rows[k].name && after[k].cardEntryId == rows[k].cardEntryId;
      if t == name { assert HasName(rows, name); }
    } else if t != "" {
      assert forall k | 0 <= k < |rows| :: after[k] == rows[k];
      if LinksTo(after, name, entryId) && !LinksTo(rows, name, entryId) {
        var k :| 0 <= k < |after| && after[k].name == name && after[k].cardEntryId == entryId;
        assert k == |rows|;
      }
      if t == name && !HasName(rows, name) {
        assert after[|rows|].name == name;
      }
    }
  }

  lemma HasNameAfter(rows: seq<ArtistSuggestion>, names: seq<string>, entryId: Id, name: string)
    ensures HasName(RecordArtists(rows, names, entryId), name) <==> HasName(rows, name) || (name != "" && Mentions(names, name) > 0)
  {
    var after := RecordArtists(rows, names, entryId);
    RowsNamedPositive(rows, name);
    RowsNamedPositive(after, name);
    if name == "" {
      RecordArtistsNoBlankRows(rows, names, entryId);
    } else {
      RecordArtistsCounts(rows, names, entryId, name);
    }
  }

  /** What an entry lists under its artist suggestions: the names it was first to
      mention. A name some earlier entry introduced keeps pointing at that entry,
      so a later entry repeating it only raises the count. */
  lemma {:induction false} EntryListsIntroducedNames(rows: seq<ArtistSuggestion>, names: seq<string>, entryId: Id, name: string)
    requires forall k | 0 <= k < |rows| :: rows[k].cardEntryId != entryId
    ensures name in ArtistNamesOf(RecordArtists(rows, names, entryId), entryId)
      <==> name != "" && Mentions(names, name) > 0 && !HasName(rows, name)
  {
    assert LinksTo(RecordArtists(rows, names, entryId), name, entryId)
      <==> name != "" && Mentions(names, name) > 0 && !HasName(rows, name) by {
      RecordArtistsLinks(rows, names, entryId, name);
    }
  }

  lemma {:induction false} RecordArtistsLinks(rows: seq<ArtistSuggestion>, names: seq<string>, entryId: Id, name: string)
    requires forall k | 0 <= k < |rows| :: rows[k].cardEntryId != entryId
    ensures LinksTo(RecordArtists(rows, names, entryId), name, entryId)
      <==> name != "" && Mentions(names, name) > 0 && !HasName(rows, name)
  {
    if names != [] {
      var init := names[..|names| - 1];
      RecordArtistsLinks(rows, init, entryId, name);
      HasNameAfter(rows, init, entryId, name);
      RecordArtistLinks(RecordArtists(rows, init, entryId), names[|names| - 1], entryId, name);
    }
  }

  /** The trimmed non-blank strings of `s`, in order. */
  function TrimmedNonBlank(s: seq<string>): seq<string> {
    if s == [] then []
    else
      var t := Text.Trim(s[|s| - 1]);
      TrimmedNonBlank(s[..|s| - 1]) + (if t != "" then [t] else [])
  }

  lemma {:induction false} TaskDescriptionsAppend(a: seq<TaskSuggestion>, b: seq<TaskSuggestion>, entryId: Id)
    ensures TaskDescriptionsOf(a + b, entryId) == TaskDescriptionsOf(a, entryId) + TaskDescriptionsOf(b, entryId)
  {
    if b != [] {
      var init := b[..|b| - 1];
      assert (a + b)[..|a + b| - 1] == a + init;
      TaskDescriptionsAppend(a, init, entryId);
    } else {
      assert a + b == a;
    }
  }

  /** What an entry lists under its task suggestions: exactly its own non-blank
      descriptions, trimmed, in the order given, duplicates kept. */
  lemma {:induction false} EntryListsItsTasks(rows: seq<TaskSuggestion>, descriptions: seq<string>, entryId: Id)
    requires forall k | 0 <= k < |rows| :: rows[k].cardEntryId != entryId
    ensures TaskDescriptionsOf(rows + NewTaskRows(descriptions, entryId), entryId) == TrimmedNonBlank(descriptions)
  {
    TaskDescriptionsAppend(rows, NewTaskRows(descriptions, entryId), entryId);
    NoTasksOf(rows, entryId);
    OwnTasks(descriptions, entryId);
  }

  lemma {:induction false} NoTasksOf(rows: seq<TaskSuggestion>, entryId: Id)
    requires forall k | 0 <= k < |rows| :: rows[k].cardEntryId != entryId
    ensures TaskDescriptionsOf(rows, entryId) == []
  {
    if rows != [] {
      NoTasksOf(rows[..|rows| - 1], entryId);
    }
  }

  lemma {:induction false} OwnTasks(descriptions: seq<string>, entryId: Id)
    ensures TaskDescriptionsOf(NewTaskRows(descriptions, entryId), entryId) == TrimmedNonBlank(descriptions)
  {
    if descriptions != [] {
      var init := descriptions[..|descriptions| - 1];
      var t := Text.Trim(descriptions[|descriptions| - 1]);
      OwnTasks(init, entryId);
      var tail := if t != "" then [TaskSuggestion(t, entryId)] else [];
      TaskDescriptionsAppend(NewTaskRows(init, entryId), tail, entryId);
      if t != "" {
        assert tail[..0] == [];
      }
    }
  }
}
