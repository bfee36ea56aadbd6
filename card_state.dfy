/** src/lib/hooks/useCardState.ts: whether the card's edit form is open. The
    answer is derived from a saved edit key, a `key` URL parameter and a "closed"
    flag in the browser's storage; closing the form sets the flag for good. The
    browser storage is a map from item names to JSON values and the URL's query
    string a list of name/value pairs. */
module CardState {
  import opened Wrappers

  /** A JSON value read back from storage: the hook stores only booleans and strings. */
  datatype Stored = StoredBool(b: bool) | StoredString(s: string)

  datatype Param = Param(name: string, value: string)

  function KeyEntry(id: string): string { "key-" + id }
  function ClosedEntry(id: string): string { "closed-" + id }

  lemma EntriesDiffer(id: string)
    ensures KeyEntry(id) != ClosedEntry(id)
  {
    assert KeyEntry(id)[0] == 'k' && ClosedEntry(id)[0] == 'c';
  }

  /** `getLocalStorageItem(name, default)`: the item, or nothing when absent. */
  function Lookup(storage: map<string, Stored>, name: string): Option<Stored> {
    if name in storage then Some(storage[name]) else None
  }

  /** JavaScript truthiness of a stored value, absent being the default `false`/`null`. */
  predicate Truthy(v: Option<Stored>) {
    match v
    case None => false
    case Some(StoredBool(b)) => b
    case Some(StoredString(s)) => s != ""
  }

  /** `a && b && a === b` for a candidate key and the card's key. */
  predicate KeyMatches(candidate: Option<string>, editKey: Option<string>) {
    candidate.Some? && candidate.value != "" && editKey.Some? && editKey.value != "" && candidate.value == editKey.value
  }

  /** The stored string under `name`, as a candidate key (a stored non-string never
      equals a string). */
  function StoredKey(storage: map<string, Stored>, name: string): Option<string> {
    match Lookup(storage, name)
    case Some(StoredString(s)) => Some(s)
    case _ => None
  }

  /** `searchParams.get(name)`: the first value under `name`. */
  function GetParam(params: seq<Param>, name: string): (r: Option<string>)
    ensures r.None? <==> forall k | 0 <= k < |params| :: params[k].name != name
    ensures r.Some? ==> exists k | 0 <= k < |params| ::
      && params[k] == Param(name, r.value)
      && forall j | 0 <= j < k :: params[j].name != name
  {
    if params == [] then None
    else if params[0].name == name then Some(params[0].value)
    else
      assert forall k | 1 <= k < |params| :: params[k] == params[1..][k - 1];
      GetParam(params[1..], name)
  }

  /** `searchParams.delete(name)`: every pair under `name` goes, the rest stay in order. */
  function DeleteParam(params: seq<Param>, name: string): (r: seq<Param>)
    ensures forall p :: p in r <==> p in params && p.name != name
  {
    if params == [] then []
    else
      assert params == [params[0]] + params[1..];
      (if params[0].name == name then [] else [params[0]]) + DeleteParam(params[1..], name)
  }

  /** After a delete the parameter is gone and every other parameter reads as before. */
  lemma {:induction false} DeleteParamEffect(params: seq<Param>, name: string, other: string)
    ensures GetParam(DeleteParam(params, name), name).None?
    ensures other != name ==> GetParam(DeleteParam(params, name), other) == GetParam(params, other)
  {
    if params != [] {
      DeleteParamEffect(params[1..], name, other);
      var rest := DeleteParam(params[1..], name);
      if params[0].name == name {
        assert DeleteParam(params, name) == rest;
      } else {
        var d := DeleteParam(params, name);
        assert d == [params[0]] + rest;
        assert d[0] == params[0] && d[1..] == rest;
      }
    }
  }

  predicate IdOk(id: Option<string>) {
    id.Some? && id.value != ""
  }

  /** The initial `isEditable`: there is an id, the form was not closed, and the
      saved key or else the URL key equals the card's key. */
  function InitialEditable(id: Option<string>, editKey: Option<string>, storage: map<string, Stored>, params: seq<Param>): bool {
    if !IdOk(id) then false
    else if Truthy(Lookup(storage, ClosedEntry(id.value))) then false
    else if KeyMatches(StoredKey(storage, KeyEntry(id.value)), editKey) then true
    else KeyMatches(GetParam(params, "key"), editKey)
  }

  /** The storage `openCardForm(key)` leaves behind. */
  function Opened(storage: map<string, Stored>, id: string, key: string): map<string, Stored> {
    storage[KeyEntry(id) := StoredString(key)]
  }

  /** The storage `closeCardForm` leaves behind. */
  function Closed(storage: map<string, Stored>, id: string): map<string, Stored> {
    (storage - {KeyEntry(id)})[ClosedEntry(id) := StoredBool(true)]
  }

  /** Opening the form with the card's key saves it: a later load is editable
      although `key` has gone from the URL, unless the form was closed before. */
  lemma OpenedKeyReopens(id: string, key: string, storage: map<string, Stored>, params: seq<Param>)
    requires id != "" && key != ""
    ensures InitialEditable(Some(id), Some(key), Opened(storage, id, key), DeleteParam(params, "key"))
      <==> !Truthy(Lookup(storage, ClosedEntry(id)))
  {
    EntriesDiffer(id);
    assert Lookup(Opened(storage, id, key), ClosedEntry(id)) == Lookup(storage, ClosedEntry(id));
    assert StoredKey(Opened(storage, id, key), KeyEntry(id)) == Some(key);
  }

  /** Closing is final across loads: after `closeCardForm` no later
      `openCardForm`, with whatever key, and no URL makes a fresh load
      editable, although `openCardForm` sets `isEditable` for the current one. */
  lemma ClosedStaysClosed(id: string, key: string, editKey: Option<string>, storage: map<string, Stored>, params: seq<Param>)
    requires id != ""
    ensures !InitialEditable(Some(id), editKey, Opened(Closed(storage, id), id, key), params)
  {
    EntriesDiffer(id);
    assert Lookup(Opened(Closed(storage, id), id, key), ClosedEntry(id)) == Some(StoredBool(true));
  }

  /** The hook's state: its props, the `isEditable` cell, the browser storage and
      the URL's query string. */
  class CardStateHook {
    var id: Option<string>
    var editKey: Option<string>
    var isLoading: bool
    var isEditable: bool
    var storage: map<string, Stored>
    var params: seq<Param>

    /** The first render. */
    constructor (id: Option<string>, editKey: Option<string>, isLoading: bool, storage: map<string, Stored>, params: seq<Param>)
      ensures this.id == id && this.editKey == editKey && this.isLoading == isLoading
      ensures this.storage == storage && this.params == params
      ensures isEditable == InitialEditable(id, editKey, storage, params)
    {
      this.id := id;
      this.editKey := editKey;
      this.isLoading := isLoading;
      this.storage := storage;
      this.params := params;
      isEditable := InitialEditable(id, editKey, storage, params);
    }

    /** A later render with new props: the state cell keeps its value. */
    method Rerender(editKey: Option<string>, isLoading: bool)
      modifies this
      ensures this.editKey == editKey && this.isLoading == isLoading
      ensures id == old(id) && isEditable == old(isEditable) && storage == old(storage) && params == old(params)
    {
      this.editKey := editKey;
      this.isLoading := isLoading;
    }

    /** `closeCardForm`: forget the saved key, set the closed flag, drop `key` from the URL. */
    method CloseCardForm()
      modifies this
      ensures id == old(id) && editKey == old(editKey) && isLoading == old(isLoading)
      ensures !IdOk(id) ==> isEditable == old(isEditable) && storage == old(storage) && params == old(params)
      ensures IdOk(id) ==> && !isEditable
                           && storage == Closed(old(storage), id.value)
                           && params == DeleteParam(old(params), "key")
      ensures IdOk(id) ==> !InitialEditable(id, editKey, storage, params) && GetParam(params, "key").None?
    {
      if !IdOk(id) {
        return;
      }
      storage := storage - {KeyEntry(id.value)};
      storage := storage[ClosedEntry(id.value) := StoredBool(true)];
      isEditable := false;
      DeleteParamEffect(params, "key", "key");
      params := DeleteParam(params, "key");
      assert Lookup(storage, ClosedEntry(id.value)) == Some(StoredBool(true));
    }

    /** `openCardForm(key)`: save a non-empty key, open the form, drop `key` from the URL. */
    method OpenCardForm(key: string)
      modifies this
      ensures id == old(id) && editKey == old(editKey) && isLoading == old(isLoading)
      ensures !IdOk(id) || key == "" ==> isEditable == old(isEditable) && storage == old(storage) && params == old(params)
      ensures IdOk(id) && key != "" ==> && isEditable
                                        && storage == Opened(old(storage), id.value, key)
                                        && params == DeleteParam(old(params), "key")
      ensures IdOk(id) && key != "" ==> GetParam(params, "key").None?
      ensures IdOk(id) ==> Lookup(storage, ClosedEntry(id.value)) == Lookup(old(storage), ClosedEntry(id.value))
    {
      if !IdOk(id) || key == "" {
        return;
      }
      EntriesDiffer(id.value);
      DeleteParamEffect(params, "key", "key");
      storage := storage[KeyEntry(id.value) := StoredString(key)];
      isEditable := true;
      params := DeleteParam(params, "key");
    }

    /** The effect that runs after a render: with the form closed it only strips
        `key` from the URL; with the right key in the URL it saves it and strips
        it. It never changes `isEditable`. */
    method SyncEffect()
      modifies this
      ensures id == old(id) && editKey == old(editKey) && isLoading == old(isLoading) && isEditable == old(isEditable)
      ensures !IdOk(id) || isLoading ==> storage == old(storage) && params == old(params)
      ensures IdOk(id) && !isLoading && Truthy(Lookup(old(storage), ClosedEntry(id.value))) ==>
        storage == old(storage) && params == DeleteParam(old(params), "key")
      ensures IdOk(id) && !isLoading && !Truthy(Lookup(old(storage), ClosedEntry(id.value))) ==>
        if KeyMatches(GetParam(old(params), "key"), editKey)
        then storage == old(storage)[KeyEntry(id.value) := StoredString(GetParam(old(params), "key").value)]
             && params == DeleteParam(old(params), "key")
        else storage == old(storage) && params == old(params)
      ensures IdOk(id) ==> Lookup(storage, ClosedEntry(id.value)) == Lookup(old(storage), ClosedEntry(id.value))
      ensures IdOk(id) && !isLoading ==> InitialEditable(id, editKey, storage, params) == InitialEditable(id, editKey, old(storage), old(params))
      ensures IdOk(id) && !isLoading && (Truthy(Lookup(old(storage), ClosedEntry(id.value))) || KeyMatches(GetParam(old(params), "key"), editKey)) ==>
        GetParam(params, "key").None?
    {
      if !IdOk(id) || isLoading {
        return;
      }
      EntriesDiffer(id.value);
      DeleteParamEffect(params, "key", "key");
      var urlEditKey := GetParam(params, "key");
      var closed := Lookup(storage, ClosedEntry(id.value));
      if Truthy(closed) {
        params := DeleteParam(params, "key");
        return;
      }
      if KeyMatches(urlEditKey, editKey) {
        storage := storage[KeyEntry(id.value) := StoredString(urlEditKey.value)];
        params := DeleteParam(params, "key");
        assert StoredKey(storage, KeyEntry(id.value)) == urlEditKey;
      }
    }
  }
}
