/**
 * The sign-in form of the Front/ client (Front/src/components/LoginPage.js).
 * It refuses empty credentials, sends them to the identity provider, and
 * turns the answer into either the signed-in record handed to onLogin or one
 * error message.  The provider's answer and the clock are parameters.
 */
module FrontLogin {
  import opened Wrappers
  import opened Text
  import opened Json

  const MissingCredentials: string := "사용자 이름과 비밀번호를 모두 입력해주세요."
  const NewPasswordMessage: string := "새 비밀번호를 설정해야 합니다."
  const SmsMessage: string := "SMS 인증이 필요합니다."
  const LoginFailedMessage: string := "로그인에 실패했습니다."
  const NotAuthorizedMessage: string := "사용자 이름 또는 비밀번호가 올바르지 않습니다."
  const NotConfirmedMessage: string := "계정이 확인되지 않았습니다. 이메일을 확인해주세요."
  const NotFoundMessage: string := "존재하지 않는 사용자입니다."
  const NetworkMessage: string := "네트워크 오류가 발생했습니다."

  /** What the provider answered: the parsed body of an ok or a failed response, or a fetch or parse failure. */
  datatype CognitoReply = Ok(result: Json) | NotOk(errorData: Json) | NetworkFailure

  /** How a sign-in attempt that passed the guard ends. */
  datatype LoginOutcome = SignedIn(userData: seq<Member>) | Failed(message: string)

  datatype Field = Username | Password

  /** `username.includes('@') ? username : username + "@cognito.local"`. */
  function EmailFor(username: string): string {
    if '@' in username then username else username + "@cognito.local"
  }

  /** The three properties the record's literal always defines, the first of its seven. */
  function Head(username: string, accessToken: Option<Json>, now: nat): seq<Member> {
    [Member("username", JStr(username)),
     Member("sub", JStr(if Truthy(accessToken) then "cognito_user_" + NatToString(now) else username)),
     Member("email", JStr(EmailFor(username)))]
  }

  /** The rest of the literal: the three tokens, each possibly `undefined`, then the profile. */
  function WithSession(head: seq<Member>, auth: Json, username: string): seq<Member> {
    var tokens := SetProp(SetProp(SetProp(head, "accessToken", Get(auth, "AccessToken")), "id_token", Get(auth, "IdToken")),
                          "refreshToken", Get(auth, "RefreshToken"));
    Put(tokens, "profile", ProfileOf(username))
  }

  function ProfileOf(username: string): Json {
    JObj([Member("name", JStr(username)), Member("username", JStr(username))])
  }

  /** The record handed to onLogin, built from `result.AuthenticationResult` at time `now`. */
  function UserDataOf(username: string, auth: Json, now: nat): seq<Member> {
    WithSession(Head(username, Get(auth, "AccessToken"), now), auth, username)
  }

  /** The message for an ok answer without AuthenticationResult. */
  function ChallengeMessage(result: Json): string {
    var challenge := Get(result, "ChallengeName");
    if challenge == Some(JStr("NEW_PASSWORD_REQUIRED")) then NewPasswordMessage
    else if challenge == Some(JStr("SMS_MFA")) then SmsMessage
    else LoginFailedMessage
  }

  /** The message for a failed answer, by its `__type`. */
  function ErrorTypeMessage(errorData: Json): string {
    var kind := Get(errorData, "__type");
    var message := Get(errorData, "message");
    if kind == Some(JStr("NotAuthorizedException")) then NotAuthorizedMessage
    else if kind == Some(JStr("UserNotConfirmedException")) then NotConfirmedMessage
    else if kind == Some(JStr("UserNotFoundException")) then NotFoundMessage
    else "로그인 오류: " + (if Truthy(message) then JsToString(message.value) else "알 수 없는 오류")
  }

  /** handleLogin after the guard.  Reading a property of a `null` body throws and ends in the catch block. */
  function Outcome(username: string, reply: CognitoReply, now: nat): LoginOutcome {
    match reply
    case NetworkFailure => Failed(NetworkMessage)
    case Ok(result) =>
      if result == JNull then Failed(NetworkMessage)
      else if Truthy(Get(result, "AuthenticationResult")) then
        SignedIn(UserDataOf(username, Get(result, "AuthenticationResult").value, now))
      else Failed(ChallengeMessage(result))
    case NotOk(errorData) =>
      if errorData == JNull then Failed(NetworkMessage) else Failed(ErrorTypeMessage(errorData))
  }

  // ---------------------------------------------------------------------------
  // Properties of the specification
  // ---------------------------------------------------------------------------

  /**
   * The signed-in record: the e-mail is the user name when that holds an '@'
   * and "<name>@cognito.local" otherwise, id_token is the IdToken, the
   * profile's name and username are the user name, and the access and
   * refresh tokens keep their camelCase names (there is no access_token or
   * refresh_token).
   */
  lemma UserDataFields(username: string, auth: Json, now: nat)
    ensures var u := UserDataOf(username, auth, now);
      && DistinctKeys(u)
      && Lookup(u, "username") == Some(JStr(username))
      && Lookup(u, "email") == Some(JStr(EmailFor(username)))
      && Lookup(u, "id_token") == Get(auth, "IdToken")
      && Lookup(u, "accessToken") == Get(auth, "AccessToken")
      && Lookup(u, "profile") == Some(ProfileOf(username))
      && Lookup(u, "access_token").None? && Lookup(u, "refresh_token").None?
  {
    var head := Head(username, Get(auth, "AccessToken"), now);
    HeadFields(head);
    SessionDistinct(head, auth, username);
    SessionTokens(head, auth, username);
    SessionKeeps(head, auth, username, "username");
    SessionKeeps(head, auth, username, "email");
    SessionKeeps(head, auth, username, "access_token");
    SessionKeeps(head, auth, username, "refresh_token");
  }

  /** The three properties the literal always defines have distinct names, none of them a snake_case token. */
  lemma HeadFields(head: seq<Member>)
    requires |head| == 3 && head[0].key == "username" && head[1].key == "sub" && head[2].key == "email"
    ensures DistinctKeys(head)
    ensures Lookup(head, "username") == Some(head[0].value) && Lookup(head, "email") == Some(head[2].value)
    ensures Lookup(head, "access_token").None? && Lookup(head, "refresh_token").None?
  {
    assert |"username"| == 8 && |"sub"| == 3 && |"email"| == 5 && |"access_token"| == 12 && |"refresh_token"| == 13;
    LookupAt(head, 0);
    LookupAt(head, 2);
  }

  /** The tokens and the profile go after the first three: the names stay distinct... */
  lemma SessionDistinct(head: seq<Member>, auth: Json, username: string)
    requires DistinctKeys(head)
    ensures DistinctKeys(WithSession(head, auth, username))
    ensures Lookup(WithSession(head, auth, username), "profile") == Some(ProfileOf(username))
  {
  }

  /** ... the tokens are read back as the provider gave them... */
  lemma SessionTokens(head: seq<Member>, auth: Json, username: string)
    ensures Lookup(WithSession(head, auth, username), "id_token") == Get(auth, "IdToken")
    ensures Lookup(WithSession(head, auth, username), "accessToken") == Get(auth, "AccessToken")
  {
    SessionIdToken(head, auth, username);
    SessionAccessToken(head, auth, username);
  }

  lemma SessionIdToken(head: seq<Member>, auth: Json, username: string)
    ensures Lookup(WithSession(head, auth, username), "id_token") == Get(auth, "IdToken")
  {
    var o4 := SetProp(head, "accessToken", Get(auth, "AccessToken"));
    var o5 := SetProp(o4, "id_token", Get(auth, "IdToken"));
    assert "id_token" != "refreshToken" && "id_token" != "profile" by {
      assert |"id_token"| == 8 && |"refreshToken"| == 12 && |"profile"| == 7;
    }
    LastStepsKeep(o5, Get(auth, "RefreshToken"), ProfileOf(username), "id_token");
  }

  /** The last two steps, the refresh token and the profile, leave every other name alone. */
  lemma LastStepsKeep(o5: seq<Member>, refreshToken: Option<Json>, profile: Json, k: string)
    requires k != "refreshToken" && k != "profile"
    ensures Lookup(Put(SetProp(o5, "refreshToken", refreshToken), "profile", profile), k) == Lookup(o5, k)
  {
  }

  lemma SessionAccessToken(head: seq<Member>, auth: Json, username: string)
    ensures Lookup(WithSession(head, auth, username), "accessToken") == Get(auth, "AccessToken")
  {
    var o4 := SetProp(head, "accessToken", Get(auth, "AccessToken"));
    assert "accessToken" != "id_token" && "accessToken" != "refreshToken" && "accessToken" != "profile" by {
      assert |"accessToken"| == 11 && |"id_token"| == 8 && |"refreshToken"| == 12 && |"profile"| == 7;
    }
    LaterStepsKeep(o4, Get(auth, "IdToken"), Get(auth, "RefreshToken"), ProfileOf(username), "accessToken");
  }

  /** The steps after the access token leave every other name alone. */
  lemma LaterStepsKeep(o4: seq<Member>, idToken: Option<Json>, refreshToken: Option<Json>, profile: Json, k: string)
    requires k != "id_token" && k != "refreshToken" && k != "profile"
    ensures Lookup(Put(SetProp(SetProp(o4, "id_token", idToken), "refreshToken", refreshToken), "profile", profile), k)
      == Lookup(o4, k)
  {
    LastStepsKeep(SetProp(o4, "id_token", idToken), refreshToken, profile, k);
  }

  /** ... and the names the first three set, or that nobody sets, are left alone. */
  lemma SessionKeeps(head: seq<Member>, auth: Json, username: string, k: string)
    requires k == "username" || k == "email" || k == "access_token" || k == "refresh_token"
    ensures Lookup(WithSession(head, auth, username), k) == Lookup(head, k)
  {
    assert k != "accessToken" && k != "id_token" && k != "refreshToken" && k != "profile" by {
      assert |"username"| == 8 && |"email"| == 5 && |"access_token"| == 12 && |"refresh_token"| == 13;
      assert |"accessToken"| == 11 && |"id_token"| == 8 && |"refreshToken"| == 12 && |"profile"| == 7;
      assert "username"[0] != "id_token"[0] && "access_token"[0] != "refreshToken"[0];
    }
  }

  /** The e-mail rule: an '@' keeps the name as it is, otherwise the local domain is added. */
  lemma EmailRule(username: string)
    ensures '@' in EmailFor(username)
    ensures '@' in username ==> EmailFor(username) == username
    ensures '@' !in username ==> EmailFor(username) == username + "@cognito.local"
  {
    if '@' !in username {
      assert EmailFor(username)[|username|] == '@';
    }
  }

  /** An unrecognised error type is reported with the provider's own message. */
  lemma UnknownTypeCarriesMessage(errorData: Json, message: string)
    requires Get(errorData, "__type") !in {Some(JStr("NotAuthorizedException")), Some(JStr("UserNotConfirmedException")),
                                          Some(JStr("UserNotFoundException"))}
    requires Get(errorData, "message") == Some(JStr(message)) && message != ""
    ensures Contains(ErrorTypeMessage(errorData), message)
  {
    var prefix := "로그인 오류: ";
    var text := prefix + message;
    assert ErrorTypeMessage(errorData) == text;
    assert text[|prefix|..|prefix| + |message|] == message;
    assert OccursAt(text, message, |prefix|);
  }

  /**
   * Signing in happens exactly when an ok answer carries a truthy
   * AuthenticationResult; any other ok answer is reported by its challenge, a
   * failed answer by its error type, and everything else as a network error.
   */
  lemma OutcomeMeaning(username: string, reply: CognitoReply, now: nat)
    ensures Outcome(username, reply, now).SignedIn? <==>
      reply.Ok? && reply.result != JNull && Truthy(Get(reply.result, "AuthenticationResult"))
    ensures reply.Ok? && reply.result != JNull && !Truthy(Get(reply.result, "AuthenticationResult")) ==>
      Outcome(username, reply, now) == Failed(ChallengeMessage(reply.result))
    ensures reply.NotOk? && reply.errorData != JNull ==> Outcome(username, reply, now) == Failed(ErrorTypeMessage(reply.errorData))
    ensures reply.NetworkFailure? || reply == Ok(JNull) || reply == NotOk(JNull) ==>
      Outcome(username, reply, now) == Failed(NetworkMessage)
  {
  }

  /** A new-password challenge and an SMS challenge each have their own message; every other answer is a plain failure. */
  lemma ChallengeMessageMeaning(result: Json)
    ensures var r, c := ChallengeMessage(result), Get(result, "ChallengeName");
      && (r == NewPasswordMessage <==> c == Some(JStr("NEW_PASSWORD_REQUIRED")))
      && (r == SmsMessage <==> c == Some(JStr("SMS_MFA")))
      && (r == LoginFailedMessage <==> c != Some(JStr("NEW_PASSWORD_REQUIRED")) && c != Some(JStr("SMS_MFA")))
  {
    assert NewPasswordMessage[0] == '새' && SmsMessage[0] == 'S' && LoginFailedMessage[0] == '로';
  }

  /**
   * Each of the three known error types has its own message, and any other
   * type gets "로그인 오류: " followed by the provider's message.
   */
  lemma ErrorTypeMessageMeaning(errorData: Json)
    ensures var r, k := ErrorTypeMessage(errorData), Get(errorData, "__type");
      && (r == NotAuthorizedMessage <==> k == Some(JStr("NotAuthorizedException")))
      && (r == NotConfirmedMessage <==> k == Some(JStr("UserNotConfirmedException")))
      && (r == NotFoundMessage <==> k == Some(JStr("UserNotFoundException")))
  {
    var prefix := "로그인 오류: ";
    assert NotAuthorizedMessage[0] == '사' && NotConfirmedMessage[0] == '계' && NotFoundMessage[0] == '존';
    var k := Get(errorData, "__type");
    if k != Some(JStr("NotAuthorizedException")) && k != Some(JStr("UserNotConfirmedException"))
       && k != Some(JStr("UserNotFoundException")) {
      assert ErrorTypeMessage(errorData)[0] == prefix[0] == '로';
    }
  }

  // ---------------------------------------------------------------------------
  // The component
  // ---------------------------------------------------------------------------

  class LoginPage {
    var username: string
    var password: string
    var showPassword: bool
    var isLoading: bool
    var error: Option<string>

    constructor ()
      ensures username == "" && password == "" && !showPassword && !isLoading && error.None?
    {
      username, password, showPassword := "", "", false;
      isLoading, error := false, None;
    }

    /** handleInputChange: sets the named field only. */
    method HandleInputChange(name: Field, value: string)
      modifies this
      ensures username == (if name == Username then value else old(username))
      ensures password == (if name == Password then value else old(password))
      ensures showPassword == old(showPassword) && isLoading == old(isLoading) && error == old(error)
    {
      if name == Username {
        username := value;
      } else {
        password := value;
      }
    }

    /** togglePasswordVisibility: flips showPassword and nothing else, so two calls restore it. */
    method TogglePasswordVisibility()
      modifies this
      ensures showPassword == !old(showPassword)
      ensures username == old(username) && password == old(password)
      ensures isLoading == old(isLoading) && error == old(error)
    {
      showPassword := !showPassword;
    }

    /**
     * handleLogin: empty credentials only set the guard's error; otherwise
     * the outcome either hands the record to onLogin and goes home, or shows
     * its message.  isLoading ends false.
     */
    method HandleLogin(reply: CognitoReply, now: nat) returns (onLogin: Option<seq<Member>>, navigateTo: Option<string>)
      modifies this
      ensures username == old(username) && password == old(password) && showPassword == old(showPassword)
      ensures old(username) == "" || old(password) == "" ==>
        error == Some(MissingCredentials) && isLoading == old(isLoading) && onLogin.None? && navigateTo.None?
      ensures old(username) != "" && old(password) != "" ==>
        var o := Outcome(username, reply, now);
        && !isLoading
        && (o.SignedIn? ==> error.None? && onLogin == Some(o.userData) && navigateTo == Some("/"))
        && (o.Failed? ==> error == Some(o.message) && onLogin.None? && navigateTo.None?)
    {
      onLogin, navigateTo := None, None;
      if username == "" || password == "" {
        error := Some(MissingCredentials);
        return;
      }
      isLoading, error := true, None;
      match reply {
      case NetworkFailure =>
        error := Some(NetworkMessage);
      case Ok(result) =>
        if result == JNull {
          error := Some(NetworkMessage);
        } else if Truthy(Get(result, "AuthenticationResult")) {
          var userData := UserDataOf(username, Get(result, "AuthenticationResult").value, now);
          onLogin := Some(userData);
          navigateTo := Some("/");
        } else {
          error := Some(ChallengeMessage(result));
        }
      case NotOk(errorData) =>
        if errorData == JNull {
          error := Some(NetworkMessage);
        } else {
          error := Some(ErrorTypeMessage(errorData));
        }
      }
      isLoading := false;
    }
  }
}
