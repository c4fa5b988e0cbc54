/** The authentication context (src/contexts/AuthContext.js): a token and a user
    profile mirrored into `localStorage`, a `loading` flag that gates the first
    route decision, and the role queries. */
module Session {
  import opened Wrappers
  import opened JsStrings
  import opened Storage

  /** The nested `role` object of a role entry; `name` is absent when missing or not a string. */
  datatype RoleRef = RoleRef(name: Option<string>)

  /** One element of `user.roles`: either the nested shape `{role: {name}}` or the
      flat shape `{name}` (or, for an odd backend reply, both). */
  datatype RoleEntry = RoleEntry(role: Option<RoleRef>, name: Option<string>)

  /** The user profile; `roles` is absent when the backend sends none. */
  datatype Profile = Profile(id: Option<string>, name: Option<string>, email: Option<string>,
                             roles: Option<seq<RoleEntry>>)

  const TokenKey := "token"
  const UserKey := "user"
  const AdminRole := "admin"
  /** The login page every unauthenticated path leads to. */
  const LoginPath := "/login"

  /** `role.role?.name === r || role.name === r`. */
  predicate EntryNamed(e: RoleEntry, r: string) {
    (e.role.Some? && e.role.value.name == Some(r)) || e.name == Some(r)
  }

  /** `roles.some(role => EntryNamed(role, r))`, scanning from the front. */
  function AnyEntryNamed(roles: seq<RoleEntry>, r: string): bool {
    if roles == [] then false else EntryNamed(roles[0], r) || AnyEntryNamed(roles[1..], r)
  }

  /** The scan finds an entry exactly when one exists. */
  lemma {:induction false} AnyEntryNamedIff(roles: seq<RoleEntry>, r: string)
    ensures AnyEntryNamed(roles, r) <==> exists i :: 0 <= i < |roles| && EntryNamed(roles[i], r)
  {
    if roles != [] {
      AnyEntryNamedIff(roles[1..], r);
      assert forall i :: 1 <= i < |roles| ==> roles[i] == roles[1..][i - 1];
      if AnyEntryNamed(roles[1..], r) {
        var j :| 0 <= j < |roles[1..]| && EntryNamed(roles[1..][j], r);
        assert EntryNamed(roles[j + 1], r);
      }
    }
  }

  /** `isAdmin()` over the current `user`: never true without a user and its `roles`. */
  function UserIsAdmin(user: Option<Profile>): (r: bool)
    ensures r ==> user.Some? && user.value.roles.Some? && user.value.roles.value != []
  {
    if user.None? then false
    else if user.value.roles.None? then false
    else AnyEntryNamed(user.value.roles.value, AdminRole)
  }

  /** `hasRole(r)` over the current `user` (an absent `roles` yields a falsy result). */
  function UserHasRole(user: Option<Profile>, r: string): (b: bool)
    ensures b ==> user.Some? && user.value.roles.Some? && user.value.roles.value != []
  {
    if user.None? then false
    else match user.value.roles
      case None => false
      case Some(rs) => AnyEntryNamed(rs, r)
  }

  /** isAdmin holds exactly for a user with some role entry named `admin` in either shape. */
  lemma IsAdminIff(user: Option<Profile>)
    ensures UserIsAdmin(user) <==>
      user.Some? && user.value.roles.Some? &&
      exists i :: 0 <= i < |user.value.roles.value| && EntryNamed(user.value.roles.value[i], AdminRole)
  {
    if user.Some? && user.value.roles.Some? {
      AnyEntryNamedIff(user.value.roles.value, AdminRole);
    }
  }

  /** hasRole holds exactly for a user with some role entry named `r` in either shape. */
  lemma HasRoleIff(user: Option<Profile>, r: string)
    ensures UserHasRole(user, r) <==>
      user.Some? && user.value.roles.Some? &&
      exists i :: 0 <= i < |user.value.roles.value| && EntryNamed(user.value.roles.value[i], r)
  {
    if user.Some? && user.value.roles.Some? {
      AnyEntryNamedIff(user.value.roles.value, r);
    }
  }

  /** `hasRole('admin')` and `isAdmin()` never disagree. */
  lemma HasAdminRoleIsAdmin(user: Option<Profile>)
    ensures UserHasRole(user, AdminRole) == UserIsAdmin(user)
  {
  }

  /** What the mount effect finds in the store. */
  datatype Restored =
    | Found(token: string, user: Profile)  // both items truthy and the profile parses
    | NothingStored                        // an item is missing or empty
    | Unparseable                          // both truthy, but `JSON.parse` throws on the profile

  /** The decision of the mount effect, given the store contents and the profile decoder. */
  function RestoreSession(items: map<string, string>, decode: string -> Option<Profile>): (r: Restored)
    ensures r.Found? ==> TokenKey in items && r.token == items[TokenKey] && r.token != ""
    ensures r.Found? ==> UserKey in items && decode(items[UserKey]) == Some(r.user)
    ensures r.NothingStored? <==>
      (TokenKey !in items || items[TokenKey] == "" || UserKey !in items || items[UserKey] == "")
    ensures !r.NothingStored? ==> UserKey in items && (r.Found? <==> decode(items[UserKey]).Some?)
  {
    var t := if TokenKey in items then Some(items[TokenKey]) else None;
    var u := if UserKey in items then Some(items[UserKey]) else None;
    if Truthy(t) && Truthy(u) then
      match decode(u.value)
      case Some(p) => Found(t.value, p)
      case None => Unparseable
    else NothingStored
  }

  /** A store from which both items were removed (by logout or by the gateway on a 401)
      restores nothing on the next start. */
  lemma ClearedStoreRestoresNothing(items: map<string, string>, decode: string -> Option<Profile>)
    ensures RestoreSession(items - {TokenKey, UserKey}, decode) == NothingStored
  {
  }

  /** What login writes is restored on the next start, provided the token is non-empty
      and the profile survives its serialisation. */
  lemma LoginIsRestored(items: map<string, string>, t: string, u: Profile,
                        encode: Profile -> string, decode: string -> Option<Profile>)
    requires t != "" && encode(u) != "" && decode(encode(u)) == Some(u)
    ensures RestoreSession(items[TokenKey := t][UserKey := encode(u)], decode) == Found(t, u)
  {
  }

  /** The `AuthProvider` component's state. `encode` and `decode` stand for
      `JSON.stringify` and `JSON.parse` on profiles (`None`: the parse throws). */
  class AuthProvider {
    const storage: LocalStorage
    const encode: Profile -> string
    const decode: string -> Option<Profile>
    var token: Option<string>
    var user: Option<Profile>
    var loading: bool

    /** The token and the user are set together and cleared together. */
    ghost predicate Valid()
      reads this
    {
      token.Some? <==> user.Some?
    }

    /** The first render: nothing known yet, still loading. */
    constructor (storage: LocalStorage, encode: Profile -> string, decode: string -> Option<Profile>)
      ensures this.storage == storage && this.encode == encode && this.decode == decode
      ensures token == None && user == None && loading
      ensures Valid()
    {
      this.storage := storage;
      this.encode := encode;
      this.decode := decode;
      token := None;
      user := None;
      loading := true;
    }

    /** The mount effect. It restores both values or neither and then ends `loading`;
        when the stored profile does not parse the effect throws before anything is
        committed, which `ok == false` reports. */
    method Init() returns (ok: bool)
      requires Valid()
      modifies this
      ensures Valid()
      ensures ok <==> !RestoreSession(storage.items, decode).Unparseable?
      ensures ok ==> !loading
      ensures !ok ==> token == old(token) && user == old(user) && loading == old(loading)
      ensures RestoreSession(storage.items, decode).Found? ==>
        token == Some(RestoreSession(storage.items, decode).token) &&
        user == Some(RestoreSession(storage.items, decode).user)
      ensures RestoreSession(storage.items, decode).NothingStored? ==>
        token == old(token) && user == old(user)
    {
      var storedToken := storage.GetItem(TokenKey);
      var storedUser := storage.GetItem(UserKey);
      if Truthy(storedToken) && Truthy(storedUser) {
        var parsed := decode(storedUser.value);
        if parsed.None? {
          return false;
        }
        token := storedToken;
        user := parsed;
      }
      loading := false;
      ok := true;
    }

    /** `login(t, u)`: write both items through to the store, then set both fields. */
    method Login(t: string, u: Profile)
      modifies this, storage
      ensures Valid()
      ensures storage.items == old(storage.items)[TokenKey := t][UserKey := encode(u)]
      ensures token == Some(t) && user == Some(u) && loading == old(loading)
    {
      storage.SetItem(TokenKey, t);
      storage.SetItem(UserKey, encode(u));
      token := Some(t);
      user := Some(u);
    }

    /** `logout()`: remove both items from the store, then clear both fields. */
    method Logout()
      modifies this, storage
      ensures Valid()
      ensures storage.items == old(storage.items) - {TokenKey, UserKey}
      ensures token == None && user == None && loading == old(loading)
    {
      storage.RemoveItem(TokenKey);
      storage.RemoveItem(UserKey);
      token := None;
      user := None;
    }

    /** The context's `isAdmin`: false while no one is logged in. */
    function IsAdmin(): (r: bool)
      reads this
      ensures r ==> user.Some?
    {
      UserIsAdmin(user)
    }

    /** The context's `hasRole`: false while no one is logged in. */
    function HasRole(r: string): (b: bool)
      reads this
      ensures b ==> user.Some?
    {
      UserHasRole(user, r)
    }

    /** `isAuthenticated: !!token`: a non-empty token, and hence (the pair being kept
        together) a profile as well. */
    function IsAuthenticated(): (r: bool)
      reads this
      ensures r <==> token.Some? && token.value != ""
      ensures Valid() && r ==> user.Some?
    {
      Truthy(token)
    }
  }

  /** Logging out twice leaves exactly the state one logout leaves. */
  method LogoutTwice(p: AuthProvider)
    modifies p, p.storage
    ensures p.storage.items == old(p.storage.items) - {TokenKey, UserKey}
    ensures p.token == None && p.user == None && p.loading == old(p.loading)
    ensures !p.IsAuthenticated() && !p.IsAdmin()
  {
    p.Logout();
    p.Logout();
  }

  /** After a login, a reload (a fresh provider over the same store) restores the same
      session, and the role queries see the logged-in profile. */
  method LoginThenReload(p: AuthProvider, t: string, u: Profile) returns (q: AuthProvider)
    requires t != "" && p.encode(u) != "" && p.decode(p.encode(u)) == Some(u)
    modifies p, p.storage
    ensures q.token == Some(t) && q.user == Some(u) && !q.loading && q.Valid()
    ensures q.IsAuthenticated()
    ensures q.IsAdmin() == UserIsAdmin(Some(u)) && q.HasRole(AdminRole) == q.IsAdmin()
  {
    p.Login(t, u);
    LoginIsRestored(old(p.storage.items), t, u, p.encode, p.decode);
    q := new AuthProvider(p.storage, p.encode, p.decode);
    var ok := q.Init();
  }

  /** After a logout, a reload restores nothing and ends loading. */
  method LogoutThenReload(p: AuthProvider) returns (q: AuthProvider)
    modifies p, p.storage
    ensures q.token == None && q.user == None && !q.loading
    ensures !q.IsAuthenticated() && !q.IsAdmin()
  {
    p.Logout();
    ClearedStoreRestoresNothing(old(p.storage.items), p.decode);
    q := new AuthProvider(p.storage, p.encode, p.decode);
    var ok := q.Init();
  }
}
