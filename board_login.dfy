/**
 * The sign-in form of the src/ client (src/components/LoginPage.js).  It
 * refuses empty credentials, signs in through the stand-in AuthService, hands
 * the user name and the two tokens to onLogin and goes home; a failure is
 * shown by its error code.
 */
module BoardLogin {
  import opened Wrappers
  import opened Json
  import AuthService

  const MissingCredentials: string := "아이디와 비밀번호를 입력해주세요."
  const LoginFailedMessage: string := "로그인에 실패했습니다."
  const NotAuthorizedMessage: string := "아이디 또는 비밀번호가 올바르지 않습니다."
  const NotConfirmedMessage: string := "이메일 인증이 완료되지 않았습니다."
  const NotFoundMessage: string := "존재하지 않는 사용자입니다."

  /** The object handed to onLogin: the user name and the two tokens of the login result, and nothing else. */
  function OnLoginRecord(u: AuthService.UserData): Json {
    JObj([Member("username", JStr(u.username)), Member("accessToken", JStr(u.accessToken)),
          Member("idToken", JStr(u.idToken))])
  }

  /** The onLogin record has exactly the three names, each carrying the result's own value; the e-mail is not passed on. */
  lemma OnLoginRecordFields(u: AuthService.UserData)
    ensures var r := OnLoginRecord(u);
      && DistinctKeys(r.members)
      && (forall i :: 0 <= i < |r.members| ==> r.members[i].key in {"username", "accessToken", "idToken"})
      && Get(r, "username") == Some(JStr(u.username))
      && Get(r, "accessToken") == Some(JStr(u.accessToken))
      && Get(r, "idToken") == Some(JStr(u.idToken))
      && Get(r, "email").None?
  {
    assert |"username"| == 8 && |"accessToken"| == 11 && |"idToken"| == 7 && |"email"| == 5;
    var ms := OnLoginRecord(u).members;
    LookupAt(ms, 1);
    LookupAt(ms, 2);
  }

  /**
   * The catch block's message: `errorMsg` starts as the generic failure and
   * is reassigned when `error.code` is one of the three known codes.  A code
   * that is `undefined` is None.
   */
  method CodeMessage(code: Option<string>) returns (errorMsg: string)
    ensures code == Some("NotAuthorizedException") ==> errorMsg == NotAuthorizedMessage
    ensures code == Some("UserNotConfirmedException") ==> errorMsg == NotConfirmedMessage
    ensures code == Some("UserNotFoundException") ==> errorMsg == NotFoundMessage
    ensures code !in {Some("NotAuthorizedException"), Some("UserNotConfirmedException"), Some("UserNotFoundException")} ==>
      errorMsg == LoginFailedMessage
    ensures errorMsg != ""
  {
    errorMsg := LoginFailedMessage;
    if code == Some("NotAuthorizedException") {
      errorMsg := NotAuthorizedMessage;
    } else if code == Some("UserNotConfirmedException") {
      errorMsg := NotConfirmedMessage;
    } else if code == Some("UserNotFoundException") {
      errorMsg := NotFoundMessage;
    }
  }

  class LoginPage {
    var username: string
    var password: string
    var isLoading: bool
    var errorMessage: string
    const auth: AuthService.Service

    constructor (auth: AuthService.Service)
      ensures username == "" && password == "" && !isLoading && errorMessage == ""
      ensures this.auth == auth
    {
      username, password, isLoading, errorMessage := "", "", false, "";
      this.auth := auth;
    }

    /**
     * handleLogin at time `now`.  Empty credentials only set the guard's
     * message.  Otherwise AuthService.login stores the made-up session, onLogin
     * receives its record, the page goes home and isLoading ends false.
     */
    method HandleLogin(now: nat) returns (onLogin: Option<Json>, navigateTo: Option<string>)
      modifies this, auth.storage
      ensures username == old(username) && password == old(password)
      ensures old(username) == "" || old(password) == "" ==>
        && errorMessage == MissingCredentials && isLoading == old(isLoading)
        && auth.storage.items == old(auth.storage.items)
        && onLogin.None? && navigateTo.None?
      ensures old(username) != "" && old(password) != "" ==>
        var u := AuthService.MadeUpUser(username, now);
        && auth.storage.items == AuthService.LoggedIn(old(auth.storage.items), u)
        && onLogin == Some(OnLoginRecord(u)) && navigateTo == Some("/")
        && errorMessage == "" && !isLoading
    {
      onLogin, navigateTo := None, None;
      if username == "" || password == "" {
        errorMessage := MissingCredentials;
        return;
      }
      isLoading, errorMessage := true, "";
      var result := auth.Login(username, password, now);
      assert result.Resolved?;
      onLogin := Some(OnLoginRecord(result.user));
      navigateTo := Some("/");
      isLoading := false;
    }
  }
}
