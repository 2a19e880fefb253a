/**
 * Properties that join two parts of the system: what the Front/ sign-in
 * page hands to App, and what the write page sends to the post server.
 */
module Flows {
  import opened Wrappers
  import opened Text
  import opened Json
  import FrontLogin
  import FrontApp
  import WritePost
  import PostRoutes

  /**
   * App.handleLogin copies the tokens from snake_case names, but the sign-in
   * page's record carries its access and refresh tokens under camelCase
   * names: the stored user and the stored tokens keep the id token and lose
   * both of the others.
   */
  lemma SignInKeepsOnlyIdToken(username: string, auth: Json, now: nat)
    ensures var u := FrontLogin.UserDataOf(username, auth, now);
      && Lookup(FrontApp.WithTokens(u), "idToken") == Get(auth, "IdToken")
      && Lookup(FrontApp.WithTokens(u), "accessToken").None?
      && Lookup(FrontApp.WithTokens(u), "refreshToken").None?
      && Lookup(FrontApp.WithTokens(u), "id_token") == Get(auth, "IdToken")
      && Lookup(FrontApp.WithTokens(u), "username") == Some(JStr(username))
      && Lookup(FrontApp.TokensOf(u), "idToken") == Get(auth, "IdToken")
      && Lookup(FrontApp.TokensOf(u), "accessToken").None?
      && Lookup(FrontApp.TokensOf(u), "refreshToken").None?
  {
    var u := FrontLogin.UserDataOf(username, auth, now);
    FrontLogin.UserDataFields(username, auth, now);
    FrontApp.WithTokensFields(u, "id_token");
    assert "id_token" != "idToken" && "username" != "idToken" && "username" != "accessToken" && "username" != "refreshToken" by {
      assert |"id_token"| == 8 && |"idToken"| == 7 && |"username"| == 8 && |"accessToken"| == 11 && |"refreshToken"| == 12;
    }
    assert "id_token" != "accessToken" && "id_token" != "refreshToken";
    FrontApp.WithTokensFields(u, "username");
    FrontApp.TokensOfFields(u, "idToken");
  }

  /**
   * A draft that passes the write page's guards, in a non-empty category,
   * carries every field create_post requires and yields a row.
   */
  lemma WrittenPostAccepted(title: string, content: string, category: string, user: Option<WritePost.CurrentUser>)
    requires WritePost.SubmitGuard(title, content).None? && category != ""
    ensures var body := WritePost.Body(WritePost.PayloadOf(title, content, category, user));
      && PostRoutes.FirstMissing(body.members, PostRoutes.RequiredFields).None?
  {
    var p := WritePost.PayloadOf(title, content, category, user);
    var body := WritePost.Body(p);
    WritePost.BodyFields(p);
    assert p.title != "" && p.content != "";
    PostRoutes.RequiredPresentIff(body.members);
  }
}
