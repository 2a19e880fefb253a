/**
 * The session kept by the root component of the Front/ client
 * (Front/src/App.js): who is signed in, and the two `localStorage` entries
 * `currentUser` and `cognitoTokens` that let a reload restore the session.
 * Both entries hold JSON text written with JSON.stringify and read back with
 * JSON.parse.
 */
module FrontApp {
  import opened Wrappers
  import opened Json
  import opened Browser

  const UserKey: string := "currentUser"
  const TokensKey: string := "cognitoTokens"
  const MissingTokenAlert: string := "로그인은 성공했지만 인증 토큰을 가져오지 못했습니다. 다시 시도해주세요."
  const LoggedOutAlert: string := "로그아웃 되었습니다."

  /** A stored string is truthy when it is there and not empty. */
  predicate NonEmpty(saved: Option<string>) {
    saved.Some? && saved.value != ""
  }

  /** `{...userData, idToken: userData.id_token, accessToken: userData.access_token, refreshToken: userData.refresh_token}`. */
  function WithTokens(userData: seq<Member>): seq<Member> {
    var a := SetProp(userData, "idToken", Lookup(userData, "id_token"));
    var b := SetProp(a, "accessToken", Lookup(userData, "access_token"));
    SetProp(b, "refreshToken", Lookup(userData, "refresh_token"))
  }

  /** `{idToken: userData.id_token, accessToken: userData.access_token, refreshToken: userData.refresh_token}`. */
  function TokensOf(userData: seq<Member>): seq<Member> {
    var a := SetProp([], "idToken", Lookup(userData, "id_token"));
    var b := SetProp(a, "accessToken", Lookup(userData, "access_token"));
    SetProp(b, "refreshToken", Lookup(userData, "refresh_token"))
  }

  /** What restoreLoginState does: sign the stored user in, clear both entries, or leave everything. */
  datatype Restore = Restored(user: Json) | Cleared | Untouched

  /**
   * restoreLoginState on the two stored texts.  A text JSON.parse rejects,
   * or tokens that are `null` (reading a property of null throws), lead to
   * the catch block, which clears both entries just as tokens without a
   * truthy idToken or accessToken do.
   */
  function RestoreOutcome(savedUser: Option<string>, savedTokens: Option<string>): Restore {
    if !(NonEmpty(savedUser) && NonEmpty(savedTokens)) then Untouched
    else
      match (Decode(savedUser.value), Decode(savedTokens.value))
      case (Some(user), Some(tokens)) =>
        if tokens == JNull then Cleared
        else if Truthy(Get(tokens, "idToken")) || Truthy(Get(tokens, "accessToken")) then Restored(user)
        else Cleared
      case _ => Cleared
  }

  // ---------------------------------------------------------------------------
  // Properties of the specification
  // ---------------------------------------------------------------------------

  /**
   * The signed-in record gains idToken, accessToken and refreshToken copied
   * from the snake_case id_token, access_token and refresh_token; every other
   * property is kept.  A camelCase accessToken already in the record is
   * replaced by access_token, and gone when that is absent.
   */
  lemma WithTokensFields(userData: seq<Member>, k: string)
    ensures Lookup(WithTokens(userData), "idToken") == Lookup(userData, "id_token")
    ensures Lookup(WithTokens(userData), "accessToken") == Lookup(userData, "access_token")
    ensures Lookup(WithTokens(userData), "refreshToken") == Lookup(userData, "refresh_token")
    ensures k != "idToken" && k != "accessToken" && k != "refreshToken" ==>
      Lookup(WithTokens(userData), k) == Lookup(userData, k)
  {
    assert |"idToken"| == 7 && |"accessToken"| == 11 && |"refreshToken"| == 12;
    var a := SetProp(userData, "idToken", Lookup(userData, "id_token"));
    var x, y := Lookup(userData, "access_token"), Lookup(userData, "refresh_token");
    LaterSetsKeep(a, x, y, "idToken");
    if k != "idToken" && k != "accessToken" && k != "refreshToken" {
      LaterSetsKeep(a, x, y, k);
    }
  }

  /** Setting accessToken and then refreshToken leaves every other name alone. */
  lemma LaterSetsKeep(a: seq<Member>, x: Option<Json>, y: Option<Json>, k: string)
    requires k != "accessToken" && k != "refreshToken"
    ensures Lookup(SetProp(SetProp(a, "accessToken", x), "refreshToken", y), k) == Lookup(a, k)
  {
    var b := SetProp(a, "accessToken", x);
    assert Lookup(b, k) == Lookup(a, k);
  }

  /** The tokens entry holds the three tokens and nothing else. */
  lemma TokensOfFields(userData: seq<Member>, k: string)
    ensures Lookup(TokensOf(userData), "idToken") == Lookup(userData, "id_token")
    ensures Lookup(TokensOf(userData), "accessToken") == Lookup(userData, "access_token")
    ensures Lookup(TokensOf(userData), "refreshToken") == Lookup(userData, "refresh_token")
    ensures k != "idToken" && k != "accessToken" && k != "refreshToken" ==> Lookup(TokensOf(userData), k).None?
  {
    assert |"idToken"| == 7 && |"accessToken"| == 11 && |"refreshToken"| == 12;
  }

  /** Both stored records are well-formed JSON whenever the login record is. */
  lemma StoredWellFormed(userData: seq<Member>)
    requires WellFormed(JObj(userData))
    ensures WellFormed(JObj(WithTokens(userData)))
    ensures WellFormed(JObj(TokensOf(userData)))
  {
    WithTokensWellFormed(userData);
    TokensOfWellFormed(userData);
  }

  lemma WithTokensWellFormed(userData: seq<Member>)
    requires WellFormed(JObj(userData))
    ensures WellFormed(JObj(WithTokens(userData)))
  {
    LookupWellFormed(userData, "id_token");
    LookupWellFormed(userData, "access_token");
    LookupWellFormed(userData, "refresh_token");
    var a := SetProp(userData, "idToken", Lookup(userData, "id_token"));
    SetPropWellFormed(userData, "idToken", Lookup(userData, "id_token"));
    var b := SetProp(a, "accessToken", Lookup(userData, "access_token"));
    SetPropWellFormed(a, "accessToken", Lookup(userData, "access_token"));
    SetPropWellFormed(b, "refreshToken", Lookup(userData, "refresh_token"));
  }

  lemma TokensOfWellFormed(userData: seq<Member>)
    requires WellFormed(JObj(userData))
    ensures WellFormed(JObj(TokensOf(userData)))
  {
    LookupWellFormed(userData, "id_token");
    LookupWellFormed(userData, "access_token");
    LookupWellFormed(userData, "refresh_token");
    var a := SetProp([], "idToken", Lookup(userData, "id_token"));
    SetPropWellFormed([], "idToken", Lookup(userData, "id_token"));
    var b := SetProp(a, "accessToken", Lookup(userData, "access_token"));
    SetPropWellFormed(a, "accessToken", Lookup(userData, "access_token"));
    SetPropWellFormed(b, "refreshToken", Lookup(userData, "refresh_token"));
  }

  /**
   * The round trip the two entries exist for: what a successful handleLogin
   * stores makes a later restoreLoginState sign in with the very record
   * handleLogin put in the state.
   */
  lemma LoginThenRestore(userData: seq<Member>)
    requires WellFormed(JObj(userData))
    requires Truthy(Lookup(userData, "id_token"))
    ensures RestoreOutcome(Some(Encode(JObj(WithTokens(userData)))), Some(Encode(JObj(TokensOf(userData)))))
            == Restored(JObj(WithTokens(userData)))
  {
    var user, tokens := JObj(WithTokens(userData)), JObj(TokensOf(userData));
    StoredWellFormed(userData);
    DecodeEncode(user);
    DecodeEncode(tokens);
    EncodeStart(user);
    EncodeStart(tokens);
    TokensOfFields(userData, "idToken");
    RestoreParsed(Encode(user), Encode(tokens), user, tokens);
  }

  /** Two entries that parse, with a truthy idToken among the tokens, restore the parsed user. */
  lemma RestoreParsed(savedUser: string, savedTokens: string, user: Json, tokens: Json)
    requires savedUser != "" && savedTokens != ""
    requires Decode(savedUser) == Some(user) && Decode(savedTokens) == Some(tokens)
    requires tokens.JObj? && Truthy(Lookup(tokens.members, "idToken"))
    ensures RestoreOutcome(Some(savedUser), Some(savedTokens)) == Restored(user)
  {
  }

  /** restoreLoginState signs in only with the record stored, and only when both entries are there. */
  lemma RestoreOutcomeMeaning(savedUser: Option<string>, savedTokens: Option<string>)
    ensures RestoreOutcome(savedUser, savedTokens).Untouched? <==> !NonEmpty(savedUser) || !NonEmpty(savedTokens)
    ensures RestoreOutcome(savedUser, savedTokens).Restored? ==>
      && Decode(savedUser.value) == Some(RestoreOutcome(savedUser, savedTokens).user)
      && Decode(savedTokens.value).Some?
      && (Truthy(Get(Decode(savedTokens.value).value, "idToken")) || Truthy(Get(Decode(savedTokens.value).value, "accessToken")))
    ensures NonEmpty(savedUser) && NonEmpty(savedTokens) && Decode(savedTokens.value).None? ==>
      RestoreOutcome(savedUser, savedTokens).Cleared?
  {
  }

  // ---------------------------------------------------------------------------
  // The component
  // ---------------------------------------------------------------------------

  class App {
    var currentUser: Option<Json>
    var isLoggedIn: bool
    const storage: LocalStorage

    /** A page that has not restored anything yet. */
    constructor (storage: LocalStorage)
      ensures this.storage == storage && currentUser.None? && !isLoggedIn
    {
      this.storage := storage;
      currentUser, isLoggedIn := None, false;
    }

    /** restoreLoginState: does what RestoreOutcome says to the state and to storage. */
    method RestoreLoginState()
      modifies this, storage
      ensures var o := RestoreOutcome(old(storage.GetItem(UserKey)), old(storage.GetItem(TokensKey)));
        && (o.Restored? ==> currentUser == Some(o.user) && isLoggedIn && storage.items == old(storage.items))
        && (o.Cleared? ==>
              && storage.items == old(storage.items) - {UserKey, TokensKey}
              && currentUser == old(currentUser) && isLoggedIn == old(isLoggedIn))
        && (o.Untouched? ==>
              storage.items == old(storage.items) && currentUser == old(currentUser) && isLoggedIn == old(isLoggedIn))
    {
      var savedUser := storage.GetItem(UserKey);
      var savedTokens := storage.GetItem(TokensKey);
      if NonEmpty(savedUser) && NonEmpty(savedTokens) {
        var userData := Decode(savedUser.value);
        var tokens := Decode(savedTokens.value);
        if userData.None? || tokens.None? || tokens.value == JNull {
          RemoveBoth(storage.items, UserKey, TokensKey);
          storage.RemoveItem(UserKey);
          storage.RemoveItem(TokensKey);
        } else if Truthy(Get(tokens.value, "idToken")) || Truthy(Get(tokens.value, "accessToken")) {
          currentUser, isLoggedIn := userData, true;
        } else {
          RemoveBoth(storage.items, UserKey, TokensKey);
          storage.RemoveItem(UserKey);
          storage.RemoveItem(TokensKey);
        }
      }
    }

    /**
     * handleLogin: without a truthy id_token only an alert is raised;
     * otherwise the record with its tokens is signed in and both entries
     * are written.
     */
    method HandleLogin(userData: seq<Member>) returns (alert: Option<string>)
      modifies this, storage
      ensures !Truthy(Lookup(userData, "id_token")) ==>
        && alert == Some(MissingTokenAlert)
        && currentUser == old(currentUser) && isLoggedIn == old(isLoggedIn) && storage.items == old(storage.items)
      ensures Truthy(Lookup(userData, "id_token")) ==>
        && alert.None? && isLoggedIn && currentUser == Some(JObj(WithTokens(userData)))
        && storage.items == old(storage.items)[UserKey := Encode(JObj(WithTokens(userData)))]
                                              [TokensKey := Encode(JObj(TokensOf(userData)))]
    {
      if !Truthy(Lookup(userData, "id_token")) {
        return Some(MissingTokenAlert);
      }
      alert := None;
      var userWithTokens := WithTokens(userData);
      currentUser, isLoggedIn := Some(JObj(userWithTokens)), true;
      storage.SetItem(UserKey, Encode(JObj(userWithTokens)));
      var tokens := TokensOf(userData);
      storage.SetItem(TokensKey, Encode(JObj(tokens)));
    }

    /** handleSignup: signs the new user in without touching storage. */
    method HandleSignup(userData: Json)
      modifies this
      ensures currentUser == Some(userData) && isLoggedIn
    {
      currentUser, isLoggedIn := Some(userData), true;
    }

    /** handleLogout: drops both entries and signs out. */
    method HandleLogout() returns (alert: string)
      modifies this, storage
      ensures storage.items == old(storage.items) - {UserKey, TokensKey}
      ensures storage.GetItem(UserKey).None? && storage.GetItem(TokensKey).None?
      ensures currentUser.None? && !isLoggedIn
      ensures alert == LoggedOutAlert
    {
      RemoveBoth(storage.items, UserKey, TokensKey);
      storage.RemoveItem(UserKey);
      storage.RemoveItem(TokensKey);
      currentUser, isLoggedIn := None, false;
      alert := LoggedOutAlert;
    }
  }

  /** After a successful login, a reload of the page (a new App over the same storage) restores that login. */
  method LoginSurvivesReload(storage: LocalStorage, userData: seq<Member>) returns (reloaded: App)
    requires WellFormed(JObj(userData)) && Truthy(Lookup(userData, "id_token"))
    modifies storage
    ensures reloaded.isLoggedIn && reloaded.currentUser == Some(JObj(WithTokens(userData)))
  {
    var app := new App(storage);
    var _ := app.HandleLogin(userData);
    reloaded := new App(storage);
    LoginThenRestore(userData);
    reloaded.RestoreLoginState();
  }
}
