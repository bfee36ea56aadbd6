/** src/lib/utils/validation.ts: required-field checks, the e-mail shape check and
    the lookup of a field's error, shared by the entry and card forms. */
module Validation {
  import opened Wrappers
  import Text

  datatype ValidationError = ValidationError(field: string, message: string)
  datatype ValidationResult = ValidationResult(isValid: bool, errors: seq<ValidationError>)

  /** `toUpperCase` on one character, for the ASCII letters. */
  function UpperAscii(c: char): (u: char)
    ensures 'a' <= c <= 'z' ==> 'A' <= u <= 'Z'
    ensures !('a' <= c <= 'z') ==> u == c
  {
    if 'a' <= c <= 'z' then (c as int - 32) as char else c
  }

  /** `s.charAt(0).toUpperCase() + s.slice(1)`. */
  function Capitalize(s: string): (r: string)
    ensures |r| == |s|
    ensures s != [] ==> r[0] == UpperAscii(s[0]) && r[1..] == s[1..]
  {
    if s == [] then [] else [UpperAscii(s[0])] + s[1..]
  }

  function RequiredError(fieldName: string): ValidationError {
    ValidationError(fieldName, Capitalize(fieldName) + " is required")
  }

  function InvalidError(fieldName: string): ValidationError {
    ValidationError(fieldName, Capitalize(fieldName) + " is invalid")
  }

  /** `validateRequired`: an error, filed under `fieldName`, exactly when the value
      is empty once trimmed. */
  function ValidateRequired(value: string, fieldName: string): (r: Option<ValidationError>)
    ensures r.Some? <==> Text.AllWhitespace(value)
    ensures r.Some? ==> r.value.field == fieldName && r.value.message == Capitalize(fieldName) + " is required"
  {
    if Text.Trim(value) == "" then Some(RequiredError(fieldName)) else None
  }

  /** `validateRequiredDate`: an error exactly when there is no date. Any `Date`
      object is truthy, so every present date passes. */
  function ValidateRequiredDate(value: Option<int>, fieldName: string): (r: Option<ValidationError>)
    ensures r.Some? <==> value.None?
    ensures r.Some? ==> r.value == ValidationError(fieldName, Capitalize(fieldName) + " is required")
  {
    if value.None? then Some(RequiredError(fieldName)) else None
  }

  // ---------------------------------------------------------------- e-mail shape

  /** A character of the regular-expression class `[^\s@]`. */
  predicate Plain(c: char) {
    !Text.IsWhitespace(c) && c != '@'
  }

  predicate AllPlain(s: string) {
    forall j | 0 <= j < |s| :: Plain(s[j])
  }

  /** `s` splits as the regular expression `/^[^\s@]+@[^\s@]+\.[^\s@]+$/` asks,
      with the `@` at `i` and the `.` at `k`: three non-empty runs of `[^\s@]`. */
  ghost predicate RegexSplit(s: string, i: int, k: int) {
    && 0 < i && i + 1 < k && k + 1 < |s|
    && s[i] == '@' && s[k] == '.'
    && AllPlain(s[..i]) && AllPlain(s[i + 1..k]) && AllPlain(s[k + 1..])
  }

  /** What it means for `s` to match the regular expression. */
  ghost predicate EmailRegexMatch(s: string) {
    exists i, k :: RegexSplit(s, i, k)
  }

  /** The direct check with the `@` at `i`: it is not first, it is the only
      character that is not plain, and a `.` lies strictly inside the part after it. */
  predicate ShapeAt(s: string, i: int) {
    && 0 < i < |s|
    && s[i] == '@'
    && (forall j | 0 <= j < |s| && j != i :: Plain(s[j]))
    && exists k | i + 1 < k < |s| - 1 :: s[k] == '.'
  }

  /** The test as a direct check. */
  function EmailShape(s: string): (b: bool) {
    exists i | 0 < i < |s| :: ShapeAt(s, i)
  }

  /** A run of plain characters inside `s` is a plain slice. */
  lemma PlainSlice(s: string, lo: nat, hi: nat)
    requires lo <= hi <= |s|
    requires forall j | lo <= j < hi :: Plain(s[j])
    ensures AllPlain(s[lo..hi])
  {
    forall j | 0 <= j < hi - lo ensures Plain(s[lo..hi][j]) {
      assert s[lo..hi][j] == s[lo + j];
    }
  }

  /** Each character of a plain slice of `s` is plain. */
  lemma SlicePlain(s: string, lo: nat, hi: nat)
    requires lo <= hi <= |s|
    requires AllPlain(s[lo..hi])
    ensures forall j | lo <= j < hi :: Plain(s[j])
  {
    forall j | lo <= j < hi ensures Plain(s[j]) {
      assert s[lo..hi][j - lo] == s[j];
    }
  }

  lemma ShapeMatchesRegex(s: string, i: int)
    requires ShapeAt(s, i)
    ensures EmailRegexMatch(s)
  {
    var k :| i + 1 < k < |s| - 1 && s[k] == '.';
    PlainSlice(s, 0, i);
    PlainSlice(s, i + 1, k);
    PlainSlice(s, k + 1, |s|);
    assert s[0..i] == s[..i] && s[k + 1..|s|] == s[k + 1..];
    assert RegexSplit(s, i, k);
  }

  lemma RegexMatchesShape(s: string, i: int, k: int)
    requires RegexSplit(s, i, k)
    ensures ShapeAt(s, i)
  {
    assert s[0..i] == s[..i] && s[k + 1..|s|] == s[k + 1..];
    SlicePlain(s, 0, i);
    SlicePlain(s, i + 1, k);
    SlicePlain(s, k + 1, |s|);
    assert Plain(s[k]);
  }

  /** The direct check agrees with the regular expression, both ways. */
  lemma EmailShapeMatchesRegex(s: string)
    ensures EmailShape(s) <==> EmailRegexMatch(s)
  {
    if EmailShape(s) {
      var i :| 0 < i < |s| && ShapeAt(s, i);
      ShapeMatchesRegex(s, i);
    }
    if EmailRegexMatch(s) {
      var i, k :| RegexSplit(s, i, k);
      RegexMatchesShape(s, i, k);
    }
  }

  /** `validateEmail`: "required" when blank, "invalid" when the trimmed value does
      not match the pattern, and no error when it does. */
  function ValidateEmail(value: string, fieldName: string): (r: Option<ValidationError>)
    ensures r.None? <==> EmailRegexMatch(Text.Trim(value))
    ensures r == Some(RequiredError(fieldName)) <==> Text.AllWhitespace(value)
    ensures r.Some? && !Text.AllWhitespace(value) ==> r == Some(InvalidError(fieldName))
  {
    EmailShapeMatchesRegex(Text.Trim(value));
    assert |InvalidError(fieldName).message| != |RequiredError(fieldName).message|;
    if Text.Trim(value) == "" then Some(RequiredError(fieldName))
    else if !EmailShape(Text.Trim(value)) then Some(InvalidError(fieldName))
    else None
  }

  // ---------------------------------------------------------------- forms

  /** The error of a check that failed, as the list `push` builds. */
  function Pushed(check: Option<ValidationError>): (errors: seq<ValidationError>)
    ensures |errors| <= 1 && (errors == [] <==> check.None?)
  {
    if check.Some? then [check.value] else []
  }

  /** The two errors a form can report differ in their field name, so each is
      found under its own field. */
  lemma TwoFieldLookup(a: Option<ValidationError>, b: Option<ValidationError>, fa: string, fb: string)
    requires fa != fb
    requires a.Some? ==> a.value.field == fa
    requires b.Some? ==> b.value.field == fb
    ensures GetFieldError(Pushed(a) + Pushed(b), fa) == (if a.Some? then Some(a.value.message) else None)
    ensures GetFieldError(Pushed(a) + Pushed(b), fb) == (if b.Some? then Some(b.value.message) else None)
  {
    var e := Pushed(a) + Pushed(b);
    if a.Some? {
      assert e[0] == a.value;
      if b.Some? { assert e[1..] == [b.value]; } else { assert e[1..] == []; }
    } else {
      assert e == Pushed(b);
    }
  }

  /** `validateEntryForm`: the username is required, then the date. */
  function ValidateEntryForm(username: string, date: Option<int>): (r: ValidationResult)
    ensures r.isValid <==> r.errors == []
    ensures r.isValid <==> !Text.AllWhitespace(username) && date.Some?
    ensures GetFieldError(r.errors, "username") == (if Text.AllWhitespace(username) then Some("Username is required") else None)
    ensures GetFieldError(r.errors, "date") == (if date.None? then Some("Date is required") else None)
    ensures forall k | 0 <= k < |r.errors| :: r.errors[k].field == "username" || r.errors[k].field == "date"
    ensures |r.errors| <= 2 && (|r.errors| == 2 ==> r.errors[0].field == "username" && r.errors[1].field == "date")
  {
    var usernameError := ValidateRequired(username, "username");
    var dateError := ValidateRequiredDate(date, "date");
    TwoFieldLookup(usernameError, dateError, "username", "date");
    EntryFormMessages();
    var errors := Pushed(usernameError) + Pushed(dateError);
    ValidationResult(|errors| == 0, errors)
  }

  lemma EntryFormMessages()
    ensures RequiredError("username").message == "Username is required"
    ensures RequiredError("date").message == "Date is required"
  {
    var u := "username";
    assert u[0] == 'u' && UpperAscii('u') == 'U';
    assert [u[0]] + u[1..] == u;
    assert Capitalize(u) == "Username";
    var d := "date";
    assert d[0] == 'd' && UpperAscii('d') == 'D';
    assert [d[0]] + d[1..] == d;
    assert Capitalize(d) == "Date";
  }

  lemma CardFormMessages()
    ensures RequiredError("Card ID").message == "Card ID is required"
    ensures RequiredError("Task").message == "Task is required"
  {
    var c := "Card ID";
    assert c[0] == 'C';
    assert Capitalize(c) == [UpperAscii(c[0])] + c[1..];
    assert [c[0]] + c[1..] == c;
    var t := "Task";
    assert Capitalize(t) == [UpperAscii(t[0])] + t[1..];
    assert [t[0]] + t[1..] == t;
  }

  /** `validateCardForm`: the card id is required, then the task; the errors are
      filed under "Card ID" and "Task". */
  function ValidateCardForm(customId: string, task: string): (r: ValidationResult)
    ensures r.isValid <==> r.errors == []
    ensures r.isValid <==> !Text.AllWhitespace(customId) && !Text.AllWhitespace(task)
    ensures GetFieldError(r.errors, "Card ID") == (if Text.AllWhitespace(customId) then Some("Card ID is required") else None)
    ensures GetFieldError(r.errors, "Task") == (if Text.AllWhitespace(task) then Some("Task is required") else None)
    ensures forall k | 0 <= k < |r.errors| :: r.errors[k].field == "Card ID" || r.errors[k].field == "Task"
  {
    var customIdError := ValidateRequired(customId, "Card ID");
    var taskError := ValidateRequired(task, "Task");
    TwoFieldLookup(customIdError, taskError, "Card ID", "Task");
    CardFormMessages();
    var errors := Pushed(customIdError) + Pushed(taskError);
    ValidationResult(|errors| == 0, errors)
  }

  /** `getFieldError`: the message of the first error filed under `fieldName`. */
  function GetFieldError(errors: seq<ValidationError>, fieldName: string): (r: Option<string>)
    ensures r.None? <==> forall k | 0 <= k < |errors| :: errors[k].field != fieldName
    ensures r.Some? ==> exists k | 0 <= k < |errors| ::
      && errors[k].field == fieldName && errors[k].message == r.value
      && forall j | 0 <= j < k :: errors[j].field != fieldName
  {
    if errors == [] then None
    else if errors[0].field == fieldName then Some(errors[0].message)
    else
      var r := GetFieldError(errors[1..], fieldName);
      assert forall k | 1 <= k < |errors| :: errors[k] == errors[1..][k - 1];
      r
  }

  /** `errors.filter(e => e.field !== name)`, as both form hooks clear a field's
      errors: exactly the errors filed under `name` go, the rest keep their order. */
  function WithoutField(errors: seq<ValidationError>, name: string): (r: seq<ValidationError>)
    ensures |r| <= |errors|
    ensures forall e :: e in r <==> e in errors && e.field != name
  {
    if errors == [] then []
    else
      assert errors == [errors[0]] + errors[1..];
      (if errors[0].field == name then [] else [errors[0]]) + WithoutField(errors[1..], name)
  }

  /** After the filter nothing is reported under `name`, and every other field
      reports the message it reported before. */
  lemma {:induction false} WithoutFieldLookup(errors: seq<ValidationError>, name: string, other: string)
    ensures GetFieldError(WithoutField(errors, name), name).None?
    ensures other != name ==> GetFieldError(WithoutField(errors, name), other) == GetFieldError(errors, other)
  {
    if errors != [] {
      WithoutFieldLookup(errors[1..], name, other);
      var rest := WithoutField(errors[1..], name);
      if errors[0].field == name {
        assert WithoutField(errors, name) == rest;
      } else {
        var d := WithoutField(errors, name);
        assert d == [errors[0]] + rest;
        assert d[0] == errors[0] && d[1..] == rest;
      }
    }
  }

  /** When no error is filed under `name` the filter removes nothing. */
  lemma {:induction false} WithoutAbsentField(errors: seq<ValidationError>, name: string)
    requires forall k | 0 <= k < |errors| :: errors[k].field != name
    ensures WithoutField(errors, name) == errors
  {
    if errors != [] {
      WithoutAbsentField(errors[1..], name);
      assert errors == [errors[0]] + errors[1..];
    }
  }
}
