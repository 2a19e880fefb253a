/**
 * The stand-in authentication service of the src/ client
 * (src/services/AuthService.js): it accepts any non-empty user name and
 * password, makes up tokens from the clock, and keeps the session in
 * `localStorage` under `user`, `accessToken` and `idToken`.  The clock is a
 * parameter.
 */
module AuthService {
  import opened Wrappers
  import opened Text
  import opened Json
  import opened Browser

  const UserKey: string := "user"
  const AccessTokenKey: string := "accessToken"
  const IdTokenKey: string := "idToken"
  const MissingCredentials: string := "사용자명과 비밀번호를 입력해주세요."

  /** The record login resolves with and stores. */
  datatype UserData = UserData(username: string, email: string, accessToken: string, idToken: string)

  /** How a login promise settles. */
  datatype LoginResult = Resolved(user: UserData) | Rejected(message: string)

  /** What getCurrentUser settles with: the parsed record, null, or a rejection when the text does not parse. */
  datatype StoredUser = User(value: Json) | NoUser | Unreadable

  /** The record made up for a user name at time `now` (milliseconds). */
  function MadeUpUser(username: string, now: nat): UserData {
    UserData(username, username + "@example.com",
             "temp-access-token-" + NatToString(now), "temp-id-token-" + NatToString(now))
  }

  /** The object `JSON.stringify` is given. */
  function UserJson(u: UserData): Json {
    JObj([Member("username", JStr(u.username)), Member("email", JStr(u.email)),
          Member("accessToken", JStr(u.accessToken)), Member("idToken", JStr(u.idToken))])
  }

  /** Storage after a successful login. */
  function LoggedIn(items: map<string, string>, u: UserData): map<string, string> {
    items[UserKey := Encode(UserJson(u))][AccessTokenKey := u.accessToken][IdTokenKey := u.idToken]
  }

  /** getCurrentUser on what storage holds. */
  function CurrentUserIn(items: map<string, string>): StoredUser {
    if UserKey !in items || items[UserKey] == "" then NoUser
    else match Decode(items[UserKey])
      case Some(j) => User(j)
      case None => Unreadable
  }

  /** isTokenValid on what storage holds. */
  predicate TokenValidIn(items: map<string, string>) {
    AccessTokenKey in items && items[AccessTokenKey] != ""
  }

  // ---------------------------------------------------------------------------
  // Properties of the specification
  // ---------------------------------------------------------------------------

  /** The stored user record is well-formed JSON. */
  lemma UserJsonWellFormed(u: UserData)
    ensures WellFormed(UserJson(u))
  {
    assert |"username"| == 8 && |"email"| == 5 && |"accessToken"| == 11 && |"idToken"| == 7;
    var ms := UserJson(u).members;
    assert forall i :: 0 <= i < |ms| ==> WellFormed(ms[i].value);
  }

  /** A stored text that parses is read back as what it parses to. */
  lemma CurrentUserParsed(items: map<string, string>, j: Json)
    requires UserKey in items && items[UserKey] != "" && Decode(items[UserKey]) == Some(j)
    ensures CurrentUserIn(items) == User(j)
  {
  }

  /** After login, getCurrentUser gives back that login's record, and the token counts as valid. */
  lemma LoginThenCurrentUser(items: map<string, string>, u: UserData)
    requires u.accessToken != ""
    ensures CurrentUserIn(LoggedIn(items, u)) == User(UserJson(u))
    ensures TokenValidIn(LoggedIn(items, u))
  {
    var after := LoggedIn(items, u);
    assert |UserKey| == 4 && |AccessTokenKey| == 11 && |IdTokenKey| == 7;
    assert after[UserKey] == Encode(UserJson(u));
    UserJsonWellFormed(u);
    DecodeEncode(UserJson(u));
    EncodeStart(UserJson(u));
    CurrentUserParsed(after, UserJson(u));
  }

  /** After logout there is no user and no valid token. */
  lemma LogoutThenNoUser(items: map<string, string>)
    ensures CurrentUserIn(items - {UserKey, AccessTokenKey, IdTokenKey}) == NoUser
    ensures !TokenValidIn(items - {UserKey, AccessTokenKey, IdTokenKey})
  {
  }

  /** The made-up tokens are never empty, so a login always leaves a valid token. */
  lemma MadeUpTokens(username: string, now: nat)
    ensures MadeUpUser(username, now).accessToken != "" && MadeUpUser(username, now).idToken != ""
    ensures MadeUpUser(username, now).email == username + "@example.com"
  {
    assert |"temp-access-token-"| == 18;
  }

  // ---------------------------------------------------------------------------
  // The service
  // ---------------------------------------------------------------------------

  class Service {
    const storage: LocalStorage

    constructor (storage: LocalStorage)
      ensures this.storage == storage
    {
      this.storage := storage;
    }

    /** login: with both credentials it stores and resolves with the made-up record; otherwise it rejects and stores nothing. */
    method Login(username: string, password: string, now: nat) returns (r: LoginResult)
      modifies storage
      ensures r.Resolved? <==> username != "" && password != ""
      ensures r.Resolved? ==> r.user == MadeUpUser(username, now) && storage.items == LoggedIn(old(storage.items), r.user)
      ensures r.Rejected? ==> r.message == MissingCredentials && storage.items == old(storage.items)
    {
      if username != "" && password != "" {
        var userData := MadeUpUser(username, now);
        storage.SetItem(UserKey, Encode(UserJson(userData)));
        storage.SetItem(AccessTokenKey, userData.accessToken);
        storage.SetItem(IdTokenKey, userData.idToken);
        r := Resolved(userData);
      } else {
        r := Rejected(MissingCredentials);
      }
    }

    /** logout: removes exactly the three session entries. */
    method Logout()
      modifies storage
      ensures storage.items == old(storage.items) - {UserKey, AccessTokenKey, IdTokenKey}
    {
      storage.RemoveItem(UserKey);
      storage.RemoveItem(AccessTokenKey);
      storage.RemoveItem(IdTokenKey);
      assert storage.items == old(storage.items) - {UserKey} - {AccessTokenKey} - {IdTokenKey};
    }

    /** getCurrentUser: the parsed `user` entry, null when there is none, a rejection when it does not parse. */
    function GetCurrentUser(): (r: StoredUser)
      reads this, storage
      ensures r.NoUser? <==> storage.GetItem(UserKey).None? || storage.GetItem(UserKey).value == ""
      ensures r.User? ==> Decode(storage.items[UserKey]) == Some(r.value)
      ensures r.Unreadable? ==> Decode(storage.items[UserKey]).None?
    {
      CurrentUserIn(storage.items)
    }

    /** isTokenValid: whether a non-empty access token is stored. */
    function IsTokenValid(): (r: bool)
      reads this, storage
      ensures r <==> storage.GetItem(AccessTokenKey).Some? && storage.GetItem(AccessTokenKey).value != ""
    {
      TokenValidIn(storage.items)
    }

    /** getStoredTokens: the access and id tokens as stored, null for a missing one. */
    function GetStoredTokens(): (r: (Option<string>, Option<string>))
      reads this, storage
      ensures r.0.Some? <==> AccessTokenKey in storage.items
      ensures r.1.Some? <==> IdTokenKey in storage.items
      ensures r.0.Some? ==> r.0.value == storage.items[AccessTokenKey]
      ensures r.1.Some? ==> r.1.value == storage.items[IdTokenKey]
    {
      (storage.GetItem(AccessTokenKey), storage.GetItem(IdTokenKey))
    }
  }
}
