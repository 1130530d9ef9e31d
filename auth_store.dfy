/**
 * The browser-side session (frontend/src/store/authStore.js): the token
 * and role the app runs with, mirrored in sessionStorage, with any copy in
 * localStorage removed.
 *
 * The two Web Storage areas are fields of the store, each a map from key
 * to text. `setItem` stores the text form of its value, so a null becomes
 * the text "null".
 */
module AuthStore {
  import opened Common

  const TokenKey := "accessToken"
  const RoleKey := "role"

  /** `String(value)` as `setItem` applies it. */
  function StorageText(v: Option<string>): string {
    if v.Some? then v.value else "null"
  }

  /** `storage.getItem(key) || null`: a missing key and the empty text both read as null. */
  function Stored(storage: map<string, string>, key: string): (r: Option<string>)
    ensures r.Some? <==> key in storage && storage[key] != []
    ensures r.Some? ==> r.value == storage[key]
  {
    if key in storage && storage[key] != [] then Some(storage[key]) else None
  }

  /** The storage with both auth keys removed and every other key as it was. */
  function WithoutAuth(storage: map<string, string>): (r: map<string, string>)
    ensures TokenKey !in r && RoleKey !in r
    ensures forall k :: k != TokenKey && k != RoleKey ==> (k in r <==> k in storage)
    ensures forall k :: k in r ==> r[k] == storage[k]
  {
    storage - {TokenKey, RoleKey}
  }

  /** The session storage after `setAuth`. */
  function WithAuth(storage: map<string, string>, token: Option<string>, role: Option<string>): (r: map<string, string>)
    ensures TokenKey in r && r[TokenKey] == StorageText(token)
    ensures RoleKey in r && r[RoleKey] == StorageText(role)
    ensures forall k :: k != TokenKey && k != RoleKey ==> (k in r <==> k in storage)
    ensures forall k :: k in r && k != TokenKey && k != RoleKey ==> r[k] == storage[k]
  {
    storage[TokenKey := StorageText(token)][RoleKey := StorageText(role)]
  }

  class Store {
    var token: Option<string>
    var role: Option<string>
    var session: map<string, string>
    var local: map<string, string>

    /** The module's first evaluation: token and role read back from sessionStorage. */
    constructor(session0: map<string, string>, local0: map<string, string>)
      ensures token == Stored(session0, TokenKey) && role == Stored(session0, RoleKey)
      ensures session == session0 && local == local0
    {
      token := Stored(session0, TokenKey);
      role := Stored(session0, RoleKey);
      session := session0;
      local := local0;
    }

    method SetAuth(t: Option<string>, r: Option<string>)
      modifies this
      ensures token == t && role == r
      ensures session == WithAuth(old(session), t, r)
      ensures local == WithoutAuth(old(local))
    {
      token := t;
      role := r;
      session := session[TokenKey := StorageText(t)];
      session := session[RoleKey := StorageText(r)];
      local := local - {TokenKey};
      local := local - {RoleKey};
    }

    method Clear()
      modifies this
      ensures token == None && role == None
      ensures session == WithoutAuth(old(session)) && local == WithoutAuth(old(local))
    {
      token := None;
      role := None;
      session := session - {TokenKey};
      session := session - {RoleKey};
      local := local - {TokenKey};
      local := local - {RoleKey};
    }
  }

  /** A reload after `setAuth` with non-empty texts restores the same token and role. */
  lemma SetAuthSurvivesReload(storage: map<string, string>, t: string, r: string)
    requires t != [] && r != []
    ensures Stored(WithAuth(storage, Some(t), Some(r)), TokenKey) == Some(t)
    ensures Stored(WithAuth(storage, Some(t), Some(r)), RoleKey) == Some(r)
  {
  }

  /** A null given to `setAuth` comes back after a reload as the text "null". */
  lemma NullSurvivesAsText(storage: map<string, string>)
    ensures Stored(WithAuth(storage, None, None), TokenKey) == Some("null")
    ensures Stored(WithAuth(storage, None, None), RoleKey) == Some("null")
  {
  }

  /** After `clear` a reload finds no session; clearing twice is clearing once. */
  lemma ClearIsFinal(storage: map<string, string>)
    ensures Stored(WithoutAuth(storage), TokenKey).None? && Stored(WithoutAuth(storage), RoleKey).None?
    ensures WithoutAuth(WithoutAuth(storage)) == WithoutAuth(storage)
  {
  }
}
