# Rahabenico card game: a Dafny model of its core

Rahabenico is a web app for a travelling card game. Each physical card carries
a task and a custom id. Whoever finds a card opens its page and adds an entry:
who they are, when and where, and optionally artist and task suggestions. A card
owner with the card's edit key may edit the card. Visitors can subscribe to a
card to get an e-mail for every new entry. There is also a chat and a photo
gallery.

This project models the core of the app:

- the Convex back end: the queries and mutations over cards, card entries,
  suggestions, subscribers, chat messages and gallery images;
- the form validators;
- the React hooks that hold the entry form, the card-creation form and
  edit-mode state;
- the hash that picks an entry's background colour.

Modules follow the source files:

| module | models |
|---|---|
| `Store` | `convex/schema.ts`: one record per table. `Database` is a class with one sequence per table and an id counter. |
| `CardEntries` | `convex/cardEntries.ts` |
| `Subscribers` | `convex/subscribers.ts` |
| `Chat` | `convex/chat.ts` |
| `Gallery` | `convex/gallery.ts` |
| `Validation` | `src/lib/utils/validation.ts` |
| `CardState` | `src/lib/hooks/useCardState.ts` |
| `EntryForm` | `src/lib/hooks/useEntryFormState.ts` |
| `CardCreation` | `src/lib/hooks/useCardCreation.ts` |
| `Colors` | `src/lib/utils/colors.ts` |
| `Text` | JavaScript's `String.prototype.trim` and the decimal rendering of a number |
| `Sorting` | the stable sort the queries use |
| `Wrappers` | `Option` and `Result` |

How the model represents the system:

- **Tables and ids.** A table is a sequence of rows in insertion order. A
  query's `.first()` is the lowest matching index. Ids come from one counter,
  `Database.nextId`, which every insert advances. `Database.Valid` says that
  every id in use lies below the counter, so an insert's id is fresh.
- **Mutations.** A Convex mutation is a method that modifies the database. Its
  postcondition gives the whole new state as an update of the old state. An
  error that the source throws becomes the `Err` case of a `Result`, with the
  database unchanged.
- **Queries.** A query is a function of the table contents.
- **Hook updaters.** A state updater of a React hook is a pure function. A
  hook's stateful handler is a method on a class that holds the hook's state.
- **Outside inputs.** The clock (`Date.now()`) and `Math.random()` are
  parameters. So are the storage service's URL lookup (`ctx.storage.getUrl`)
  and the mail service's answers.

## Model

| member | source | states |
|---|---|---|
| `Store.Database.constructor` | convex/schema.ts:5-70 | An empty database, whose every id lies below the counter. |
| `Store.RemoveKeepsIdsBelow` | convex/subscribers.ts:52 | Deleting a row keeps every remaining id below the counter. |
| `CardEntries.GetCardByCustomId` | convex/cardEntries.ts:4-12 | The result exists iff some card has that custom id. It is the first such card. |
| `CardEntries.GetAllCards` | convex/cardEntries.ts:15-19 | Every card, and nothing else. |
| `CardEntries.CreateCard` | convex/cardEntries.ts:82-109 | A duplicate custom id fails with `Card with customId "…" already exists` and changes nothing. Otherwise exactly one card `{customId, task, editKey}` is appended under a fresh id, which is returned with the edit key. |
| `CardEntries.CreateCardEntry` | convex/cardEntries.ts:111-184 | The entry is stored under a fresh id with only the arguments' fields. The artist table becomes `RecordArtists` of the given names. Task rows for the non-blank descriptions are appended. Nothing else changes. |
| `CardEntries.RecordArtistSuggestions` | convex/cardEntries.ts:142-167 | The loop over names leaves the artist table equal to `RecordArtists` of the old table. |
| `CardEntries.RecordTaskSuggestions` | convex/cardEntries.ts:171-180 | The loop over descriptions appends exactly `NewTaskRows`. |
| `CardEntries.RecordArtist` | convex/cardEntries.ts:143-165 | A blank name changes nothing. A known trimmed name bumps the count of the first row with that name by one (a missing count counts as 1) and changes no other row. A new name appends a row with count 1 that points at the entry. |
| `CardEntries.NewTaskRows` | convex/cardEntries.ts:171-180 | One row per non-blank description. Each row is trimmed, non-empty and points at the entry. |
| `CardEntries.RecordArtistCounts` | convex/cardEntries.ts:143-165 | One loop turn adds exactly 1 to the total of the trimmed name, leaves every other total alone, and creates a row only on a first mention. |
| `CardEntries.RecordArtistsCounts` | convex/cardEntries.ts:142-167 | After the whole loop, each name's total grows by the number of times it was mentioned. |
| `CardEntries.RecordArtistsNoBlankRows` | convex/cardEntries.ts:143-144 | The loop never creates a row with an empty name. |
| `CardEntries.RecordArtistsRecordsCounts` | convex/cardEntries.ts:155-165 | Once every row of a name carries an explicit count, that stays true. |
| `CardEntries.FreshNameCounter` | convex/cardEntries.ts:160-165 | A name not yet present and mentioned k times ends with one row whose count is k. |
| `CardEntries.TrimmedNamesShareRow` | convex/cardEntries.ts:143-150 | A name and its trimmed form update the same row. |
| `CardEntries.RecordArtistsKeepsNamesUnique` | convex/cardEntries.ts:142-167 | If artist names are unique in the table, they stay unique. |
| `CardEntries.HasNameAfter` | convex/cardEntries.ts:142-167 | After the loop a name is present iff it was present before or is a non-empty name that was mentioned. |
| `CardEntries.RecordArtistsLinks` | convex/cardEntries.ts:160-165 | For an entry with no rows yet, some row with a name points at the entry iff the name is non-empty, was mentioned and was not present before. |
| `CardEntries.EntryListsIntroducedNames` | convex/cardEntries.ts:58-75 | A name shows up in the new entry's artist list iff this entry was the first to mention it. A repeated name only raises the count of the earlier row. |
| `CardEntries.EntryListsItsTasks` | convex/cardEntries.ts:171-180 | A new entry's task list is exactly its trimmed non-blank descriptions, in order. |
| `CardEntries.DistinctNamesSound` | convex/cardEntries.ts:29-33 | The grouping keys are distinct, and a name is a key iff some row has it. |
| `CardEntries.TotalsByName` | convex/cardEntries.ts:29-33 | The map loop keys each name in first-appearance order. Each value is the sum of that name's counts, with a missing count read as 1. |
| `CardEntries.CountsPermutation` | convex/cardEntries.ts:36-38 | Any reordering of the grouped counts keeps each total correct, the names distinct, and exactly the names that occur. |
| `CardEntries.GetAllArtistSuggestions` | convex/cardEntries.ts:22-41 | The result is a permutation of the grouped totals, sorted by count descending. There is one entry per distinct name, and each count is that name's total. |
| `CardEntries.GetCardEntriesByCardId` | convex/cardEntries.ts:44-78 | The result holds exactly this card's entries (as a multiset), latest date first. Each entry carries its own artist names and task descriptions. |
| `CardEntries.SortedLatestFirst` | convex/cardEntries.ts:54 | A sort by a descending date key puts later dates first. |
| `CardEntries.CardEntriesListed` | convex/cardEntries.ts:44-78 | An entry is listed iff it is stored and belongs to the card. |
| `CardEntries.AttachSuggestions` | convex/cardEntries.ts:58-75 | The mapping keeps the entries in order and attaches each one's suggestion lists. |
| `Subscribers.FindSubscription` | convex/subscribers.ts:16-19 | The lookup finds the first row with this card and e-mail, and finds nothing iff there is none. |
| `Subscribers.SubscribeToCard` | convex/subscribers.ts:9-34 | An existing subscription's id is returned and nothing changes. Otherwise one row `{cardId, email, subscribedAt}` is appended under a fresh id. Either way the pair is subscribed afterwards. |
| `Subscribers.UnsubscribeFromCard` | convex/subscribers.ts:40-57 | Success iff a subscription existed. Then exactly the first matching row is deleted. Otherwise the result is `Subscription not found` and nothing changes. |
| `Subscribers.SubscribeTwiceOnce` | convex/subscribers.ts:16-33 | After a first subscription the lookup finds the new row, and the pair occurs exactly once. A second call is therefore a no-op. |
| `Subscribers.SubscribeThenUnsubscribe` | convex/subscribers.ts:27-56 | Unsubscribing right after a first subscription restores the table. |
| `Subscribers.PairCountRemove` | convex/subscribers.ts:46-56 | Deleting a row lowers the pair's count by one if the row holds that pair, and leaves it unchanged otherwise. |
| `Subscribers.GetCardSubscribers` | convex/subscribers.ts:64-75 | Exactly the e-mails subscribed to the card, each as often as it has a subscription row for the card. |
| `Subscribers.SubscribersInRowOrder` | convex/subscribers.ts:69-74 | The list follows the table order: the subscribers of earlier rows come first. |
| `Subscribers.SentPlusFailed` | convex/subscribers.ts:115-183 | Every subscriber counts as either sent or failed, never both. |
| `Subscribers.SendNotificationEmails` | convex/subscribers.ts:82-191 | No subscribers gives `{sent: 0}`. Missing credentials give `Mailjet not configured`. Otherwise `sent` counts the accepted sends, `total` is the number of subscribers, `errors` lists one line per failure (absent when there are none), and sent plus failures equals total. |
| `Chat.SendMessage` | convex/chat.ts:4-17 | Exactly one message with trimmed username and content is appended under a fresh id. |
| `Chat.GetMessages` | convex/chat.ts:20-29 | The result is a permutation of the messages with a timestamp of at least 0, in ascending timestamp order. |
| `Chat.MessagesListed` | convex/chat.ts:22-26 | A message is listed iff it is stored and its timestamp is not negative. |
| `Gallery.CheckStorageIdExists` | convex/gallery.ts:290-300 | True iff some image has the storage id. |
| `Gallery.AddGalleryImage` | convex/gallery.ts:85-108 | A missing or empty URL fails with `File not found in storage` and changes nothing. Otherwise one image stamped `now` is appended under a fresh id. |
| `Gallery.ImportCounts` | convex/gallery.ts:140-177 | Every item ends up either added or reported as an error. |
| `Gallery.ImportAppends` | convex/gallery.ts:140-177 | The rows added are appended after the old ones, in order, and are the ones reported as added. |
| `Gallery.ImportKeepsUnique` | convex/gallery.ts:149-158 | The duplicate check keeps storage ids unique across the gallery table. |
| `Gallery.ImportKeepsIdsBelow` | convex/gallery.ts:160-166 | Imported rows get fresh ids below the advanced counter. |
| `Gallery.MissingFilesNotAdded` | convex/gallery.ts:143-147 | Only files whose URL was found are added. |
| `Gallery.BulkAddGalleryImages` | convex/gallery.ts:125-178 | The table and the added/error lists are those of the import fold. Added plus errors equals the input count. Unique storage ids stay unique. |
| `Gallery.DiscoverAndAddFiles` | convex/gallery.ts:232-285 | Imports the given storage ids with no metadata. The summary is `{total, added, errors}` with added plus errors equal to total. Unique storage ids stay unique. |
| `Gallery.DiscoverLoop` | convex/gallery.ts:240-283 | The loop over storage ids computes the import fold. |
| `Gallery.GetGalleryImages` | convex/gallery.ts:9-47 | Exactly the images whose URL is found, each with its URL. |
| `Gallery.GetGalleryImagesByDate` | convex/gallery.ts:53-68 | The same set of images, newest upload first. |
| `Gallery.ByUploadedAtDesc` | convex/gallery.ts:55 | The descending index scan returns a permutation of the images, newest first. |
| `Gallery.WithUrlsKeepsOrder` | convex/gallery.ts:57-67 | Dropping images without a URL keeps the newest-first order. |
| `Gallery.GetImagesFromStorageIds` | convex/gallery.ts:188-204 | Exactly the given ids whose URL is found, each with its URL. Every id is kept as often as it was given when its file exists, and not at all otherwise. |
| `Gallery.StoredUrlsInOrder` | convex/gallery.ts:193-203 | The filter keeps the order of the ids given. |
| `Validation.ValidateRequired` | src/lib/utils/validation.ts:26-34 | An error iff the value is blank after trimming. The error is filed under the field name with the message `<Capitalised> is required`. |
| `Validation.ValidateRequiredDate` | src/lib/utils/validation.ts:51-59 | An error iff no date is given, with the same message. |
| `Validation.EmailShapeMatchesRegex` | src/lib/utils/validation.ts:83 | The executable e-mail check is equivalent to a whole-string match of `^[^\s@]+@[^\s@]+\.[^\s@]+$`. |
| `Validation.ValidateEmail` | src/lib/utils/validation.ts:76-91 | A blank value gives the required error. A non-blank value gives `<Capitalised> is invalid` iff its trimmed form does not match the regex. Otherwise there is no error. |
| `Validation.ValidateEntryForm` | src/lib/utils/validation.ts:108-125 | Valid iff there are no errors, iff the username is non-blank and a date is set. `Username is required` and `Date is required` appear under "username" and "date" exactly when their conditions hold. Errors are filed only under those two fields, at most two of them, username first. |
| `Validation.ValidateCardForm` | src/lib/utils/validation.ts:142-159 | Valid iff there are no errors, iff both values are non-blank. The errors are filed under "Card ID" and "Task" only. |
| `Validation.GetFieldError` | src/lib/utils/validation.ts:175-178 | The message of the first error under the field. None iff no error has that field. |
| `Validation.WithoutFieldLookup` | src/lib/hooks/useEntryFormState.ts:98-102 | After the errors of one field are filtered out, that field reads as error-free and every other field reads as before. |
| `CardState.GetParam` | src/lib/hooks/useCardState.ts:38 | `searchParams.get`: nothing iff no pair has that name. Otherwise the value of the first pair with it. |
| `CardState.DeleteParamEffect` | src/lib/hooks/useCardState.ts:57 | After `searchParams.delete` the name is gone and every other parameter reads as before. |
| `CardState.OpenedKeyReopens` | src/lib/hooks/useCardState.ts:33-37 | After `openCardForm` with the card's key, a later load is editable with `key` gone from the URL iff the form was not closed before. |
| `CardState.ClosedStaysClosed` | src/lib/hooks/useCardState.ts:27-30 | After `closeCardForm`, no later `openCardForm` and no URL key makes a fresh load editable. |
| `CardState.CardStateHook.constructor` | src/lib/hooks/useCardState.ts:26-45 | The initial `isEditable` is `InitialEditable` of the props, the storage and the URL. |
| `CardState.CardStateHook.Rerender` | src/lib/hooks/useCardState.ts:26 | New props leave the state cell as it was. |
| `CardState.CardStateHook.CloseCardForm` | src/lib/hooks/useCardState.ts:48-60 | With an id: the saved key is removed, the closed flag set and `key` stripped from the URL. The form is not editable and no longer opens on a reload. Without an id nothing changes. |
| `CardState.CardStateHook.OpenCardForm` | src/lib/hooks/useCardState.ts:62-75 | With an id and a non-empty key: the key is saved, the form is open and `key` is stripped from the URL. The closed flag is untouched. Otherwise nothing changes. |
| `CardState.CardStateHook.SyncEffect` | src/lib/hooks/useCardState.ts:77-97 | It never changes `isEditable`. While loading or without an id it changes nothing. A closed card only loses the URL `key`. A matching URL key is saved and stripped. A reload reaches the same decision as before. |
| `EntryForm.UpdateFormField` | src/lib/hooks/useEntryFormState.ts:95-104 | The field takes the new value and every other field keeps its own. `isValid` and `isSubmitting` are kept. Exactly the errors under the field's name are dropped. |
| `EntryForm.TypingClearsUsernameError` | src/lib/hooks/useEntryFormState.ts:95-104 | Typing a username removes the username error and keeps the date error. |
| `EntryForm.ToggleOptional` | src/lib/hooks/useEntryFormState.ts:127-143 | The comment or Instagram switch flips. Hiding empties the text and showing keeps it. Nothing else changes. |
| `EntryForm.ToggleSuggestions` | src/lib/hooks/useEntryFormState.ts:145-159 | The section flips and its list is reset to one empty item. Nothing else changes. |
| `EntryForm.AddSuggestion` | src/lib/hooks/useEntryFormState.ts:161-166 | One empty item with id `artist-<now>` / `task-<now>` is appended. The old items are kept in order. Nothing else changes. |
| `EntryForm.RemoveSuggestion` | src/lib/hooks/useEntryFormState.ts:168-173 | An index in range removes exactly that item. Any other index leaves the list alone. Nothing else changes. |
| `EntryForm.UpdateSuggestion` | src/lib/hooks/useEntryFormState.ts:175-182 | Only the value at the index changes. Ids, length and the other items are kept. Nothing else changes. |
| `EntryForm.DropPosition` | src/lib/hooks/useEntryFormState.ts:171 | `filter((_, i) => i !== index)` is the list without position `index`, or the list itself when the index is out of range. |
| `EntryForm.SetGpsData` | src/lib/hooks/useEntryFormState.ts:207-213 | Only the position and the city change. A call without a city sets it to `""`. |
| `EntryForm.InitialState` | src/lib/hooks/useEntryFormState.ts:77-93 | Empty texts, no date or position, sections hidden with one empty item each, not submitting, valid with no errors. |
| `EntryForm.InitialStateIncomplete` | src/lib/hooks/useEntryFormState.ts:77-93 | The initial form fails validation on both username and date. |
| `EntryForm.TrimmedOrAbsent` | src/lib/hooks/useEntryFormState.ts:259-262 | `value.trim() \|\| undefined`: absent iff blank, else the trimmed, non-empty text. |
| `EntryForm.NonBlankValues` | src/lib/hooks/useEntryFormState.ts:264-265 | The item values that are not blank, and nothing else. |
| `EntryForm.NonBlankValuesCounts` | src/lib/hooks/useEntryFormState.ts:264-265 | Each non-blank value is kept as often as it occurs among the items, and each blank value is dropped. |
| `EntryForm.NonBlankValuesEmpty` | src/lib/hooks/useEntryFormState.ts:264 | The filter comes back empty iff every item is blank. |
| `EntryForm.NonBlankValuesInOrder` | src/lib/hooks/useEntryFormState.ts:264-265 | The filter keeps list order: the values of earlier items come first. |
| `EntryForm.SectionValues` | src/lib/hooks/useEntryFormState.ts:263-272 | Values are sent iff the section is shown and has a non-blank item. What is sent is the non-empty list of non-blank values. |
| `EntryForm.BuildPayload` | src/lib/hooks/useEntryFormState.ts:254-272 | The payload carries the card id, the trimmed username, the date, the position, the optional fields trimmed or absent, and the suggestion sections. |
| `EntryForm.ValidPayload` | src/lib/hooks/useEntryFormState.ts:238-272 | A form that validates has a date. Its payload's username is non-empty and already trimmed. Every suggestion it sends would be kept by the server's blank filter. |
| `EntryForm.EntryFormHook.constructor` | src/lib/hooks/useEntryFormState.ts:77-93 | The hook starts in the initial state. |
| `EntryForm.EntryFormHook.ResetForm` | src/lib/hooks/useEntryFormState.ts:215-233 | Back to the initial state. |
| `EntryForm.EntryFormHook.HandleSubmit` | src/lib/hooks/useEntryFormState.ts:235-290 | An invalid form only stores its validation and sends nothing. A valid form sends `BuildPayload` of the state and then resets on success. On failure it keeps the input with `isSubmitting` false. |
| `CardCreation.InitialForm` | src/lib/hooks/useCardCreation.ts:60-67 | Empty inputs, no error, no success, no URL. |
| `CardCreation.ChangeInput` | src/lib/hooks/useCardCreation.ts:74-82 | The named input takes the value and the other is kept. The error and success are cleared. |
| `CardCreation.ClearErrorsAsWritten` | src/lib/hooks/useCardCreation.ts:85-88 | The errors under the input's own name are dropped. |
| `CardCreation.TypingLeavesCardFormErrors` | src/lib/hooks/useCardCreation.ts:85-88 | As written, typing into either input leaves every card-form error in place. |
| `CardCreation.TypedCardIdStillReportedMissing` | src/lib/hooks/useCardCreation.ts:85-88 | Concrete case: after a blank card id and typing into "customId", `Card ID is required` is still reported. |
| `CardCreation.ClearErrors` | src/lib/hooks/useCardCreation.ts:85-88 | Corrected: drops exactly the errors under the field the validator reports for that input. |
| `CardCreation.TypingClearsCardFormError` | src/lib/hooks/useCardCreation.ts:85-88 | Corrected: typing into one input clears that input's error and keeps the other input's error. |
| `CardCreation.EditUrlParts` | src/lib/hooks/useCardCreation.ts:124 | The edit URL's path is the card URL prefix plus the trimmed id, and its query is `key=<editKey>`. |
| `CardCreation.CardCreationHook.constructor` | src/lib/hooks/useCardCreation.ts:60-72 | The hook starts empty and valid. |
| `CardCreation.CardCreationHook.HandleInputChange` | src/lib/hooks/useCardCreation.ts:74-89 | As written: the form takes the value, and the errors under the input's name are dropped, which leaves every card-form error in place. |
| `CardCreation.CardCreationHook.HandleInputChangeCorrected` | src/lib/hooks/useCardCreation.ts:74-89 | As intended: the form takes the value, and the error the validator filed for the input is cleared. |
| `CardCreation.CardCreationHook.HandleSubmit` | src/lib/hooks/useCardCreation.ts:91-142 | Without a password: `Please log in with admin password` and no call. An invalid form stores its validation and makes no call. A valid form calls the mutation with the trimmed values. `Created` records success and the edit URL. `Failed` records the message, or `Failed to create card` when there is none. |
| `CardCreation.CardCreationHook.ResetForm` | src/lib/hooks/useCardCreation.ts:144-157 | Back to the initial form and validation. |
| `Colors.Int32` | src/lib/utils/colors.ts:20-21 | `hash & hash`: a 32-bit signed value congruent modulo 2^32, and the identity on such values. |
| `Colors.ShiftLeft5` | src/lib/utils/colors.ts:20 | `hash << 5`: a 32-bit signed value congruent to 32·hash. |
| `Colors.Utf16` | src/lib/utils/colors.ts:18-19 | `charCodeAt` walks UTF-16 code units. For text inside the Basic Multilingual Plane these are the characters themselves. |
| `Colors.GetBackgroundColor` | src/lib/utils/colors.ts:16-24 | The loop computes `Hash` of the id's code units. The colour is `backgroundColors[abs(hash) % 10]`, always one of the ten, and the empty id gets `bg-blue-100`. |
| `Colors.HashIsTruncatedPolyHash` | src/lib/utils/colors.ts:18-22 | The loop's 32-bit hash equals the exact polynomial hash Σ 31^(n-1-i)·c_i truncated to 32 bits, so truncating at each step loses nothing. |
| `Colors.SameResidueSameColor` | src/lib/utils/colors.ts:18-23 | Ids whose exact polynomial hashes agree modulo 2^32 get the same hash, and so the same colour. |

## Left out

- Numbers: Convex's `v.number()` is modelled as an unbounded integer for dates,
  counts, timestamps and `order`. GPS coordinates are reals and are only passed
  through. Floating point is not modelled.
- Strings are sequences of Unicode scalar values. Only the colour hash
  converts them to UTF-16 code units. `toUpperCase` in `Capitalize` is modelled
  for ASCII letters only.
- Ids: the model gives every insert a fresh id from one counter. Suggestion
  rows carry no id because none is ever read. A patch by id becomes an update at
  the index the lookup found.
- `Date.now()` and `Math.random()` (the edit key) are parameters of the
  mutations. So are the storage URL lookup and the mail service's per-attempt
  answers.
- In `sendNotificationEmails`, the e-mail text, HTML, subject, base URL, sender
  and base64 credentials are left out, as is the HTTP request itself. A non-2xx
  answer and a thrown error both become a failure line.
- `Gallery.GetGalleryImages`: the `by_order` index ordering with its
  `by_uploadedAt` fallback is not modelled. Images come in insertion order; the
  contract states only which images appear and with which URL.
- The `catch` branches of the gallery loops are left out, because the model's
  storage lookup and inserts cannot throw.
- `CardEntries.GetCardEntriesByCardId`: the order among entries with equal
  dates (the descending index scan followed by a stable sort) is stated only as
  a permutation that is latest-first.
- The `getCardByCustomId` and `by_cardId` index scans return rows in index
  order. The model uses insertion order, which agrees with it for the first
  match by custom id.
- Concurrency between mutations, Convex's transactional retries and the
  reactive re-running of queries are left out.
- React rendering is left out: the intermediate `isSubmitting = true` render,
  the `onSuccess` callback, `alert` and `console` output.
- `handleDateChange` and its keeping of the time of day through `setHours` are
  left out: the date is an opaque integer.
- `EntryForm.UpdateFormField` requires the value to fit the field's type. This
  is the TypeScript signature's demand; the `name as keyof` cast in
  `handleInputChange` is not modelled.
- Wiring outside the hooks is not part of this model. This covers the views
  that mount them (CardView's edit mode, the Admin page's password) and whether
  the server accepts the payload fields `instagram` and `adminPassword`. The
  payload is modelled as the hook builds it.
- The doc comment of `validateCardForm` names the field `customId`. The code
  files errors under `Card ID` and `Task`, and the model follows the code.

## Findings

| source | as written | input that shows it | evidently intended | confidence | as-written member | corrected member |
|---|---|---|---|---|---|---|
| src/lib/hooks/useCardCreation.ts:85-88 | `handleInputChange` drops the validation errors whose field equals the input's name (`customId`, `task`). `validateCardForm` files them under `Card ID` and `Task`, so none is ever dropped. | Submit with a blank card id, then type into the `customId` input: `Card ID is required` stays. | Typing into an input clears that input's error, which the views read under `Card ID` / `Task`. | not executed | `CardCreation.ClearErrorsAsWritten`, `CardCreation.TypingLeavesCardFormErrors`, `CardCreation.TypedCardIdStillReportedMissing`, used by `CardCreation.CardCreationHook.HandleInputChange` | `CardCreation.ClearErrors`, `CardCreation.TypingClearsCardFormError`, used by `CardCreation.CardCreationHook.HandleInputChangeCorrected` |
