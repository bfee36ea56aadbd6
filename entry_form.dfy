/** src/lib/hooks/useEntryFormState.ts: the state of the form that adds an entry
    to a card. Every updater is a pure function from the previous state to the
    next; the submit handler is a method on the hook, which owns the state cell
    and calls the entry mutation. */
module EntryForm {
  import opened Wrappers
  import Text
  import opened Store
  import opened Validation
  import CardEntries
  import Sorting

  datatype SuggestionItem = SuggestionItem(id: string, value: string)

  /** `EntryFormState`: the form data plus the submitting flag and the last
      validation result. The date is the instant of the picked `Date`, if any. */
  datatype EntryFormState = EntryFormState(
    username: string,
    date: Option<int>,
    location: string,
    comment: string,
    showComment: bool,
    instagram: string,
    showInstagram: bool,
    gpsPosition: Option<GpsPosition>,
    city: string,
    artistSuggestions: seq<SuggestionItem>,
    taskSuggestions: seq<SuggestionItem>,
    showArtistSuggestions: bool,
    showTaskSuggestions: bool,
    isSubmitting: bool,
    validation: ValidationResult)

  // ---------------------------------------------------------------- fields

  /** The keys of `EntryFormData`. */
  datatype Field =
    | UsernameField | DateField | LocationField | CommentField | ShowCommentField
    | InstagramField | ShowInstagramField | GpsPositionField | CityField
    | ArtistSuggestionsField | TaskSuggestionsField
    | ShowArtistSuggestionsField | ShowTaskSuggestionsField

  /** A value of one of those fields. */
  datatype FieldValue =
    | TextValue(text: string)
    | DateValue(date: Option<int>)
    | FlagValue(flag: bool)
    | GpsValue(position: Option<GpsPosition>)
    | ItemsValue(items: seq<SuggestionItem>)

  /** The property name of a field, as validation errors name it. */
  function Key(f: Field): string {
    match f
    case UsernameField => "username"
    case DateField => "date"
    case LocationField => "location"
    case CommentField => "comment"
    case ShowCommentField => "showComment"
    case InstagramField => "instagram"
    case ShowInstagramField => "showInstagram"
    case GpsPositionField => "gpsPosition"
    case CityField => "city"
    case ArtistSuggestionsField => "artistSuggestions"
    case TaskSuggestionsField => "taskSuggestions"
    case ShowArtistSuggestionsField => "showArtistSuggestions"
    case ShowTaskSuggestionsField => "showTaskSuggestions"
  }

  /** The type `EntryFormData[K]` asks of a value for field `K`. */
  predicate Fits(f: Field, v: FieldValue) {
    match f
    case UsernameField | LocationField | CommentField | InstagramField | CityField => v.TextValue?
    case DateField => v.DateValue?
    case ShowCommentField | ShowInstagramField | ShowArtistSuggestionsField | ShowTaskSuggestionsField => v.FlagValue?
    case GpsPositionField => v.GpsValue?
    case ArtistSuggestionsField | TaskSuggestionsField => v.ItemsValue?
  }

  function Get(s: EntryFormState, f: Field): (v: FieldValue)
    ensures Fits(f, v)
  {
    match f
    case UsernameField => TextValue(s.username)
    case DateField => DateValue(s.date)
    case LocationField => TextValue(s.location)
    case CommentField => TextValue(s.comment)
    case ShowCommentField => FlagValue(s.showComment)
    case InstagramField => TextValue(s.instagram)
    case ShowInstagramField => FlagValue(s.showInstagram)
    case GpsPositionField => GpsValue(s.gpsPosition)
    case CityField => TextValue(s.city)
    case ArtistSuggestionsField => ItemsValue(s.artistSuggestions)
    case TaskSuggestionsField => ItemsValue(s.taskSuggestions)
    case ShowArtistSuggestionsField => FlagValue(s.showArtistSuggestions)
    case ShowTaskSuggestionsField => FlagValue(s.showTaskSuggestions)
  }

  /** `{...prev, [field]: value}`: the field reads `v` and no other field moves. */
  function Set(s: EntryFormState, f: Field, v: FieldValue): (r: EntryFormState)
    requires Fits(f, v)
    ensures Get(r, f) == v
    ensures forall g | g != f :: Get(r, g) == Get(s, g)
    ensures r.isSubmitting == s.isSubmitting && r.validation == s.validation
  {
    match f
    case UsernameField => s.(username := v.text)
    case DateField => s.(date := v.date)
    case LocationField => s.(location := v.text)
    case CommentField => s.(comment := v.text)
    case ShowCommentField => s.(showComment := v.flag)
    case InstagramField => s.(instagram := v.text)
    case ShowInstagramField => s.(showInstagram := v.flag)
    case GpsPositionField => s.(gpsPosition := v.position)
    case CityField => s.(city := v.text)
    case ArtistSuggestionsField => s.(artistSuggestions := v.items)
    case TaskSuggestionsField => s.(taskSuggestions := v.items)
    case ShowArtistSuggestionsField => s.(showArtistSuggestions := v.flag)
    case ShowTaskSuggestionsField => s.(showTaskSuggestions := v.flag)
  }

  /** `b` agrees with `a` on every field outside `fs`, on the submitting flag and
      on the validation result. */
  predicate SameOutside(a: EntryFormState, b: EntryFormState, fs: set<Field>) {
    && (forall g | g !in fs :: Get(a, g) == Get(b, g))
    && a.isSubmitting == b.isSubmitting && a.validation == b.validation
  }

  /** `updateFormField(field, value)`: sets the field, drops exactly the validation
      errors filed under its name, and leaves everything else alone. */
  function UpdateFormField(s: EntryFormState, f: Field, v: FieldValue): (r: EntryFormState)
    requires Fits(f, v)
    ensures Get(r, f) == v
    ensures forall g | g != f :: Get(r, g) == Get(s, g)
    ensures r.isSubmitting == s.isSubmitting && r.validation.isValid == s.validation.isValid
    ensures forall e :: e in r.validation.errors <==> e in s.validation.errors && e.field != Key(f)
    ensures GetFieldError(r.validation.errors, Key(f)).None?
  {
    WithoutFieldLookup(s.validation.errors, Key(f), Key(f));
    var t := Set(s, f, v);
    var r := t.(validation := s.validation.(errors := WithoutField(s.validation.errors, Key(f))));
    ValidationIsNoField(t, r.validation);
    r
  }

  /** The validation result is not one of the form's fields. */
  lemma ValidationIsNoField(s: EntryFormState, v: ValidationResult)
    ensures forall g :: Get(s.(validation := v), g) == Get(s, g)
  {
  }

  /** The entry form files its errors under the property names, so typing a
      username clears the "Username is required" message and keeps a date error. */
  lemma TypingClearsUsernameError(s: EntryFormState, username: string)
    ensures var r := UpdateFormField(s, UsernameField, TextValue(username));
      && GetFieldError(r.validation.errors, "username").None?
      && GetFieldError(r.validation.errors, "date") == GetFieldError(s.validation.errors, "date")
  {
    WithoutFieldLookup(s.validation.errors, "username", "date");
  }

  // ---------------------------------------------------------------- optional texts

  /** The comment and the Instagram handle, each behind a show/hide switch. */
  datatype OptionalText = CommentText | InstagramText

  function TextField(o: OptionalText): Field {
    match o
    case CommentText => CommentField
    case InstagramText => InstagramField
  }

  function ShowField(o: OptionalText): Field {
    match o
    case CommentText => ShowCommentField
    case InstagramText => ShowInstagramField
  }

  /** `toggleComment` / `toggleInstagram`: flip the switch; hiding the field clears
      its text, showing it keeps the text. */
  function ToggleOptional(s: EntryFormState, o: OptionalText): (r: EntryFormState)
    ensures Get(r, ShowField(o)) == FlagValue(!Get(s, ShowField(o)).flag)
    ensures Get(s, ShowField(o)).flag ==> Get(r, TextField(o)) == TextValue("")
    ensures !Get(s, ShowField(o)).flag ==> Get(r, TextField(o)) == Get(s, TextField(o))
    ensures SameOutside(r, s, {ShowField(o), TextField(o)})
  {
    var shown := Get(s, ShowField(o)).flag;
    var text := if !shown then Get(s, TextField(o)) else TextValue("");
    Set(Set(s, ShowField(o), FlagValue(!shown)), TextField(o), text)
  }

  // ---------------------------------------------------------------- suggestion lists

  /** The artist and the task suggestion lists. */
  datatype SuggestionList = Artists | Tasks

  function ItemsField(l: SuggestionList): Field {
    match l
    case Artists => ArtistSuggestionsField
    case Tasks => TaskSuggestionsField
  }

  function ShownField(l: SuggestionList): Field {
    match l
    case Artists => ShowArtistSuggestionsField
    case Tasks => ShowTaskSuggestionsField
  }

  /** The prefix of the list's item ids. */
  function Prefix(l: SuggestionList): string {
    match l
    case Artists => "artist-"
    case Tasks => "task-"
  }

  function Items(s: EntryFormState, l: SuggestionList): seq<SuggestionItem> {
    Get(s, ItemsField(l)).items
  }

  function Shown(s: EntryFormState, l: SuggestionList): bool {
    Get(s, ShownField(l)).flag
  }

  /** The one empty item a list starts with, and is reset to. */
  function FirstItem(l: SuggestionList): SuggestionItem {
    SuggestionItem(Prefix(l) + "0", "")
  }

  /** `toggleArtistSuggestions` / `toggleTaskSuggestions`: flip the section's switch;
      either way the list becomes one empty item. */
  function ToggleSuggestions(s: EntryFormState, l: SuggestionList): (r: EntryFormState)
    ensures Shown(r, l) == !Shown(s, l)
    ensures Items(r, l) == [FirstItem(l)]
    ensures SameOutside(r, s, {ShownField(l), ItemsField(l)})
  {
    Set(Set(s, ShownField(l), FlagValue(!Shown(s, l))), ItemsField(l), ItemsValue([FirstItem(l)]))
  }

  /** `addArtistSuggestion` / `addTaskSuggestion`: one empty item at the end, whose
      id carries the clock reading `now` (`Date.now()`). */
  function AddSuggestion(s: EntryFormState, l: SuggestionList, now: nat): (r: EntryFormState)
    ensures |Items(r, l)| == |Items(s, l)| + 1
    ensures Items(r, l)[..|Items(s, l)|] == Items(s, l)
    ensures Items(r, l)[|Items(s, l)|] == SuggestionItem(Prefix(l) + Text.NatToString(now), "")
    ensures Shown(r, l) == Shown(s, l)
    ensures SameOutside(r, s, {ItemsField(l)})
  {
    Set(s, ItemsField(l), ItemsValue(Items(s, l) + [SuggestionItem(Prefix(l) + Text.NatToString(now), "")]))
  }

  /** `items.filter((_, i) => i !== index)`, walking the list with the index
      shifted: exactly the element at `index` goes, and an index outside the
      list removes nothing. */
  function DropPosition<T>(items: seq<T>, index: int): (r: seq<T>)
    ensures 0 <= index < |items| ==> r == items[..index] + items[index + 1..]
    ensures !(0 <= index < |items|) ==> r == items
  {
    if items == [] then []
    else
      var rest := DropPosition(items[1..], index - 1);
      assert items == [items[0]] + items[1..];
      if index == 0 then rest else [items[0]] + rest
  }

  /** `removeArtistSuggestion` / `removeTaskSuggestion`. */
  function RemoveSuggestion(s: EntryFormState, l: SuggestionList, index: int): (r: EntryFormState)
    ensures 0 <= index < |Items(s, l)| ==> |Items(r, l)| == |Items(s, l)| - 1
    ensures 0 <= index < |Items(s, l)| ==>
      forall k | 0 <= k < |Items(r, l)| :: Items(r, l)[k] == Items(s, l)[if k < index then k else k + 1]
    ensures !(0 <= index < |Items(s, l)|) ==> Items(r, l) == Items(s, l)
    ensures Shown(r, l) == Shown(s, l)
    ensures SameOutside(r, s, {ItemsField(l)})
  {
    Set(s, ItemsField(l), ItemsValue(DropPosition(Items(s, l), index)))
  }

  /** `items.map((x, i) => i === index ? {...x, value} : x)`. */
  function ReplaceValue(items: seq<SuggestionItem>, index: int, value: string): (r: seq<SuggestionItem>)
    ensures |r| == |items|
    ensures forall k | 0 <= k < |r| :: r[k].id == items[k].id
    ensures forall k | 0 <= k < |r| && k != index :: r[k] == items[k]
    ensures 0 <= index < |r| ==> r[index].value == value
  {
    seq(|items|, k requires 0 <= k < |items| => if k == index then items[k].(value := value) else items[k])
  }

  /** `updateArtistSuggestion` / `updateTaskSuggestion`: only the value at `index`
      changes; ids, length and the other items stay. */
  function UpdateSuggestion(s: EntryFormState, l: SuggestionList, index: int, value: string): (r: EntryFormState)
    ensures |Items(r, l)| == |Items(s, l)|
    ensures forall k | 0 <= k < |Items(r, l)| :: Items(r, l)[k].id == Items(s, l)[k].id
    ensures forall k | 0 <= k < |Items(r, l)| && k != index :: Items(r, l)[k] == Items(s, l)[k]
    ensures 0 <= index < |Items(r, l)| ==> Items(r, l)[index].value == value
    ensures Shown(r, l) == Shown(s, l)
    ensures SameOutside(r, s, {ItemsField(l)})
  {
    Set(s, ItemsField(l), ItemsValue(ReplaceValue(Items(s, l), index, value)))
  }

  /** `setGPSData(position, city)`; a call that omits the city passes the
      default `""`. */
  function SetGpsData(s: EntryFormState, position: Option<GpsPosition>, city: string): (r: EntryFormState)
    ensures r.gpsPosition == position && r.city == city
    ensures SameOutside(r, s, {GpsPositionField, CityField})
  {
    Set(Set(s, GpsPositionField, GpsValue(position)), CityField, TextValue(city))
  }

  // ---------------------------------------------------------------- initial state

  /** The state of a fresh form, which `resetForm` restores: nothing entered,
      both sections hidden with one empty item each, no errors. */
  function InitialState(): (s: EntryFormState)
    ensures forall f | f in {UsernameField, LocationField, CommentField, InstagramField, CityField} :: Get(s, f) == TextValue("")
    ensures s.date.None? && s.gpsPosition.None?
    ensures !s.showComment && !s.showInstagram && !Shown(s, Artists) && !Shown(s, Tasks)
    ensures Items(s, Artists) == [FirstItem(Artists)] && Items(s, Tasks) == [FirstItem(Tasks)]
    ensures !s.isSubmitting && s.validation == ValidationResult(true, [])
  {
    EntryFormState("", None, "", "", false, "", false, None, "", [FirstItem(Artists)], [FirstItem(Tasks)],
                   false, false, false, ValidationResult(true, []))
  }

  /** A fresh form would not pass validation: both the username and the date are
      missing. */
  lemma InitialStateIncomplete()
    ensures var v := ValidateEntryForm(InitialState().username, InitialState().date);
      && !v.isValid
      && GetFieldError(v.errors, "username") == Some("Username is required")
      && GetFieldError(v.errors, "date") == Some("Date is required")
  {
  }

  // ---------------------------------------------------------------- submission

  /** The argument object handed to `createCardEntry`. */
  datatype EntryPayload = EntryPayload(
    cardId: Id,
    username: string,
    date: int,
    gpsPosition: Option<GpsPosition>,
    location: Option<string>,
    city: Option<string>,
    comment: Option<string>,
    instagram: Option<string>,
    artistSuggestions: Option<seq<string>>,
    taskSuggestions: Option<seq<string>>)

  /** `value.trim() || undefined`. */
  function TrimmedOrAbsent(value: string): (r: Option<string>)
    ensures r.None? <==> Text.AllWhitespace(value)
    ensures r.Some? ==> r.value == Text.Trim(value) && r.value != ""
  {
    if Text.Trim(value) == "" then None else Some(Text.Trim(value))
  }

  function ValuesOf(items: seq<SuggestionItem>): (r: seq<string>)
    ensures |r| == |items| && forall k | 0 <= k < |r| :: r[k] == items[k].value
  {
    seq(|items|, k requires 0 <= k < |items| => items[k].value)
  }

  /** `items.filter(s => s.value.trim()).map(s => s.value)`: the values that are
      not blank, as typed (not trimmed), in list order. */
  function NonBlankValues(items: seq<SuggestionItem>): (r: seq<string>)
    ensures |r| <= |items|
    ensures forall k | 0 <= k < |r| :: !Text.AllWhitespace(r[k])
    ensures forall v :: v in r <==> v in ValuesOf(items) && !Text.AllWhitespace(v)
  {
    if items == [] then []
    else
      var init, last := items[..|items| - 1], items[|items| - 1];
      assert ValuesOf(items) == ValuesOf(init) + [last.value];
      NonBlankValues(init) + (if !Text.AllWhitespace(last.value) then [last.value] else [])
  }

  lemma NonBlankValuesSnoc(init: seq<SuggestionItem>, last: SuggestionItem)
    ensures NonBlankValues(init + [last]) == NonBlankValues(init) + (if !Text.AllWhitespace(last.value) then [last.value] else [])
  {
    var items := init + [last];
    assert items[..|items| - 1] == init;
  }

  /** The filter keeps every non-blank value as often as it occurs among the
      items and drops every blank one. */
  lemma {:induction false} NonBlankValuesCounts(items: seq<SuggestionItem>)
    ensures forall v :: multiset(NonBlankValues(items))[v] == if Text.AllWhitespace(v) then 0 else multiset(ValuesOf(items))[v]
  {
    if items != [] {
      var init, last := items[..|items| - 1], items[|items| - 1];
      assert items == init + [last];
      NonBlankValuesCounts(init);
      NonBlankValuesSnoc(init, last);
      assert ValuesOf(items) == ValuesOf(init) + [last.value];
    }
  }

  /** The filter keeps list order: the values of earlier items come first. */
  lemma {:induction false} NonBlankValuesInOrder(a: seq<SuggestionItem>, b: seq<SuggestionItem>)
    ensures NonBlankValues(a + b) == NonBlankValues(a) + NonBlankValues(b)
  {
    if b == [] {
      assert a + b == a;
      assert NonBlankValues(a) + NonBlankValues(b) == NonBlankValues(a) + [];
    } else {
      var init, last := b[..|b| - 1], b[|b| - 1];
      assert b == init + [last];
      assert a + b == (a + init) + [last];
      var x, y := NonBlankValues(a), NonBlankValues(init);
      var t := if !Text.AllWhitespace(last.value) then [last.value] else [];
      NonBlankValuesSnoc(a + init, last);
      NonBlankValuesSnoc(init, last);
      NonBlankValuesInOrder(a, init);
      assert NonBlankValues(a + b) == (x + y) + t;
      Sorting.ConcatAssoc(x, y, t);
    }
  }

  /** The filter comes back empty exactly when every value is blank. */
  lemma {:induction false} NonBlankValuesEmpty(items: seq<SuggestionItem>)
    ensures NonBlankValues(items) != [] <==> exists k | 0 <= k < |items| :: !Text.AllWhitespace(items[k].value)
  {
    if items != [] {
      var init, last := items[..|items| - 1], items[|items| - 1];
      assert items == init + [last];
      NonBlankValuesEmpty(init);
      NonBlankValuesSnoc(init, last);
      if NonBlankValues(init) != [] {
        var k :| 0 <= k < |init| && !Text.AllWhitespace(init[k].value);
        assert items[k] == init[k];
      } else if !Text.AllWhitespace(last.value) {
        assert items[|items| - 1] == last;
      } else {
        forall k | 0 <= k < |items|
          ensures Text.AllWhitespace(items[k].value)
        {
          if k < |init| { assert items[k] == init[k]; }
        }
      }
    }
  }

  /** What a section sends: nothing while hidden or when every value is blank,
      else its non-blank values. */
  function SectionValues(shown: bool, items: seq<SuggestionItem>): (r: Option<seq<string>>)
    ensures r.Some? <==> shown && exists k | 0 <= k < |items| :: !Text.AllWhitespace(items[k].value)
    ensures r.Some? ==> r.value == NonBlankValues(items) && r.value != []
  {
    var values := NonBlankValues(items);
    NonBlankValuesEmpty(items);
    if shown && |values| > 0 then Some(values) else None
  }

  /** The mutation's argument built from a form whose date is set (`date!`). */
  function BuildPayload(s: EntryFormState, cardId: Id): (p: EntryPayload)
    requires s.date.Some?
    ensures p.cardId == cardId && p.username == Text.Trim(s.username) && p.date == s.date.value
    ensures p.gpsPosition == s.gpsPosition
    ensures p.location == TrimmedOrAbsent(s.location) && p.city == TrimmedOrAbsent(s.city)
    ensures p.comment == TrimmedOrAbsent(s.comment) && p.instagram == TrimmedOrAbsent(s.instagram)
    ensures p.artistSuggestions == SectionValues(s.showArtistSuggestions, s.artistSuggestions)
    ensures p.taskSuggestions == SectionValues(s.showTaskSuggestions, s.taskSuggestions)
  {
    EntryPayload(
      cardId, Text.Trim(s.username), s.date.value, s.gpsPosition,
      TrimmedOrAbsent(s.location), TrimmedOrAbsent(s.city),
      TrimmedOrAbsent(s.comment), TrimmedOrAbsent(s.instagram),
      SectionValues(s.showArtistSuggestions, s.artistSuggestions),
      SectionValues(s.showTaskSuggestions, s.taskSuggestions))
  }

  /** A form that passes validation sends a non-empty username with nothing to
      trim, and every sent suggestion survives the server's blank check, so each
      sent task becomes one task row. */
  lemma {:induction false} ValidPayload(s: EntryFormState, cardId: Id)
    requires ValidateEntryForm(s.username, s.date).isValid
    ensures s.date.Some?
    ensures var p := BuildPayload(s, cardId);
      && p.username != "" && Text.Trim(p.username) == p.username
      && (p.artistSuggestions.Some? ==> CardEntries.NonBlank(p.artistSuggestions.value) == |p.artistSuggestions.value|)
      && (p.taskSuggestions.Some? ==> CardEntries.NonBlank(p.taskSuggestions.value) == |p.taskSuggestions.value|)
  {
    Text.TrimIdempotent(s.username);
    AllCountAsNonBlank(NonBlankValues(s.artistSuggestions));
    AllCountAsNonBlank(NonBlankValues(s.taskSuggestions));
  }

  lemma {:induction false} AllCountAsNonBlank(values: seq<string>)
    requires forall k | 0 <= k < |values| :: !Text.AllWhitespace(values[k])
    ensures CardEntries.NonBlank(values) == |values|
  {
    if values != [] {
      AllCountAsNonBlank(values[..|values| - 1]);
    }
  }

  /** The hook: the card it adds entries to and its state cell. */
  class EntryFormHook {
    const cardId: Id
    var state: EntryFormState

    constructor (cardId: Id)
      ensures this.cardId == cardId && state == InitialState()
    {
      this.cardId := cardId;
      state := InitialState();
    }

    /** `resetForm`. */
    method ResetForm()
      modifies this
      ensures state == InitialState()
    {
      state := InitialState();
    }

    /** `handleSubmit`. The validation result is stored first; an invalid form
        stops there and sends nothing. A valid form is sent as built from the
        state at submit time; `mutationSucceeds` is the mutation's outcome. On
        success the form is reset, on failure only the submitting flag is cleared
        again. */
    method HandleSubmit(mutationSucceeds: bool) returns (sent: Option<EntryPayload>)
      modifies this
      ensures var v := ValidateEntryForm(old(state).username, old(state).date);
        if !v.isValid then sent.None? && state == old(state).(validation := v)
        else
          && old(state).date.Some?
          && sent == Some(BuildPayload(old(state), cardId))
          && state == (if mutationSucceeds then InitialState() else old(state).(validation := v, isSubmitting := false))
      ensures sent.Some? ==> sent.value.username != "" && Text.Trim(sent.value.username) == sent.value.username
    {
      var before := state;
      var validationResult := ValidateEntryForm(state.username, state.date);
      state := state.(validation := validationResult);
      if !validationResult.isValid {
        return None;
      }
      state := state.(isSubmitting := true);
      ValidPayload(before, cardId);
      var payload := BuildPayload(before, cardId);
      sent := Some(payload);
      if mutationSucceeds {
        ResetForm();
      } else {
        state := state.(isSubmitting := false);
      }
    }
  }
}
