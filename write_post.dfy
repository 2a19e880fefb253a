/**
 * The post editor (WritePostPage.js, in both copies of the client: the one
 * under Front/ posts to port 8081, the other to port 5000; the logic is the
 * same).  Submitting runs three guards on the draft, then needs the signed-in
 * user's id token, then sends the draft and reads the server's answer.  The
 * answer and the confirmation dialog's choice are parameters.
 */
module WritePost {
  import opened Wrappers
  import opened Text
  import opened Json

  const TitleRequired: string := "게시글 제목을 입력해주세요."
  const ContentRequired: string := "게시글 내용을 입력해주세요."
  const ContentTooShort: string := "게시글은 최소 5자 이상 입력해주세요."
  const NoTokenMessage: string := "인증 토큰이 없습니다. 다시 로그인해주세요."
  const WriteFailedMessage: string := "게시글 작성에 실패했습니다."
  const WrittenMessage: string := "게시글이 성공적으로 작성되었습니다!"
  const DiscardPrompt: string := "작성 중인 내용이 있습니다. 정말로 취소하시겠습니까?"

  /** The shortest content, after trimming, that may be submitted. */
  const MinContentLength: nat := 5

  const InitialCategory: string := "전체"

  /** The two copies of the page differ only in the server they post to. */
  datatype Copy = FrontCopy | SrcCopy

  function PostsEndpoint(copy: Copy): string {
    match copy
    case FrontCopy => "http://localhost:8081/api/v1/posts"
    case SrcCopy => "http://localhost:5000/api/v1/posts"
  }

  /** The parts of `currentUser` the page reads; an absent property is None. */
  datatype Profile = Profile(name: Option<string>, username: Option<string>)
  datatype CurrentUser = CurrentUser(idToken: Option<string>, profile: Option<Profile>)

  /** The fields handleInputChange is called with. */
  datatype Field = Title | Content | Category

  /** The request body, in the order of its object literal. */
  datatype Payload = Payload(title: string, content: string, author: string, category: string)

  /** What the posts endpoint answered. */
  datatype PostReply =
    | NotOk(message: Option<string>)            // a response that is not ok, and its body's `message`
    | Ok(success: bool, message: Option<string>) // an ok response, its `success` and `message`
    | Thrown(reason: string)                    // fetch or a body parse threw an error with this message

  predicate TruthyText(s: Option<string>) {
    s.Some? && s.value != ""
  }

  // ---------------------------------------------------------------------------
  // Specification functions
  // ---------------------------------------------------------------------------

  /**
   * The alert of the first guard the draft fails, or None when it passes all
   * three; the length is JavaScript's, in UTF-16 code units.
   */
  function SubmitGuard(title: string, content: string): Option<string> {
    if Trim(JavaScript, title) == "" then Some(TitleRequired)
    else if Trim(JavaScript, content) == "" then Some(ContentRequired)
    else if Utf16Length(Trim(JavaScript, content)) < MinContentLength then Some(ContentTooShort)
    else None
  }

  /** `currentUser?.id_token`, when it is truthy. */
  function Token(user: Option<CurrentUser>): Option<string> {
    if user.Some? && TruthyText(user.value.idToken) then user.value.idToken else None
  }

  /** `profile?.name || profile?.username || "Anonymous"`. */
  function Author(user: Option<CurrentUser>): string {
    var profile := if user.Some? then user.value.profile else None;
    if profile.Some? && TruthyText(profile.value.name) then profile.value.name.value
    else if profile.Some? && TruthyText(profile.value.username) then profile.value.username.value
    else "Anonymous"
  }

  function PayloadOf(title: string, content: string, category: string, user: Option<CurrentUser>): Payload {
    Payload(Trim(JavaScript, title), Trim(JavaScript, content), Author(user), category)
  }

  /** The JSON object `JSON.stringify` is given. */
  function Body(p: Payload): (j: Json)
    ensures j.JObj? && |j.members| == 4
  {
    JObj([Member("title", JStr(p.title)), Member("content", JStr(p.content)),
          Member("author", JStr(p.author)), Member("category", JStr(p.category))])
  }

  /** The error a reply leaves shown; None for a successful write. */
  function ReplyFailure(reply: PostReply): Option<string> {
    match reply
    case NotOk(m) => Some(if TruthyText(m) then m.value else WriteFailedMessage)
    case Ok(success, m) => if success then None else Some(if TruthyText(m) then m.value else WriteFailedMessage)
    case Thrown(m) => Some(m)
  }

  /** The error shown after a submission that passed the guards. */
  function SubmitError(user: Option<CurrentUser>, reply: PostReply): Option<string> {
    if Token(user).None? then Some(NoTokenMessage) else ReplyFailure(reply)
  }

  /** Whether the draft holds anything worth a confirmation before it is thrown away. */
  predicate HasDraft(title: string, content: string) {
    Trim(JavaScript, title) != "" || Trim(JavaScript, content) != ""
  }

  // ---------------------------------------------------------------------------
  // Properties of the specification
  // ---------------------------------------------------------------------------

  /**
   * The guards pass exactly when the trimmed title is non-empty and the
   * trimmed content has at least five UTF-16 units (five characters when they
   * all lie in the Basic Multilingual Plane); a blank title is reported first
   * whatever the content.
   */
  lemma GuardsIff(title: string, content: string)
    ensures SubmitGuard(title, content).None? <==>
      !AllSpace(JavaScript, title) && Utf16Length(Trim(JavaScript, content)) >= MinContentLength
    ensures InBmp(Trim(JavaScript, content)) ==>
      (SubmitGuard(title, content).None? <==> !AllSpace(JavaScript, title) && |Trim(JavaScript, content)| >= MinContentLength)
    ensures AllSpace(JavaScript, title) ==> SubmitGuard(title, content) == Some(TitleRequired)
    ensures !AllSpace(JavaScript, title) && AllSpace(JavaScript, content) ==> SubmitGuard(title, content) == Some(ContentRequired)
  {
    TrimEmptyIff(JavaScript, title);
    TrimEmptyIff(JavaScript, content);
    Utf16LengthBmp(Trim(JavaScript, content));
  }

  /** Three emoji are six UTF-16 units: the content passes the length guard with three characters. */
  lemma AstralContentAccepted()
    ensures SubmitGuard("t", "\U{1F600}\U{1F600}\U{1F600}") == None
  {
    var c := "\U{1F600}\U{1F600}\U{1F600}";
    assert Trim(JavaScript, "t") != "" by {
      TrimEmptyIff(JavaScript, "t");
      assert !IsSpace(JavaScript, 't');
    }
    assert Trim(JavaScript, c) == c by {
      assert !IsSpace(JavaScript, c[0]) && !IsSpace(JavaScript, c[|c| - 1]);
    }
    assert Utf16Length(c) == 6 by {
      assert c[1..][1..][1..] == [];
    }
  }

  /** The author is never empty: the first non-empty of name and username, otherwise "Anonymous". */
  lemma AuthorFallback(user: Option<CurrentUser>)
    ensures Author(user) != ""
    ensures user.Some? && user.value.profile.Some? && TruthyText(user.value.profile.value.name) ==>
      Author(user) == user.value.profile.value.name.value
    ensures (user.Some? && user.value.profile.Some? && !TruthyText(user.value.profile.value.name)
             && TruthyText(user.value.profile.value.username)) ==>
      Author(user) == user.value.profile.value.username.value
    ensures user.None? || user.value.profile.None? ==> Author(user) == "Anonymous"
  {
  }

  /** The body sent is a well-formed object from which the server reads back each value. */
  lemma BodyFields(p: Payload)
    ensures WellFormed(Body(p))
    ensures Lookup(Body(p).members, "title") == Some(JStr(p.title))
    ensures Lookup(Body(p).members, "content") == Some(JStr(p.content))
    ensures Lookup(Body(p).members, "author") == Some(JStr(p.author))
    ensures Lookup(Body(p).members, "category") == Some(JStr(p.category))
  {
    assert |"title"| == 5 && |"content"| == 7 && |"author"| == 6 && |"category"| == 8;
    var ms := Body(p).members;
    assert forall i :: 0 <= i < |ms| ==> WellFormed(ms[i].value);
    assert DistinctKeys(ms);
    LookupAt(ms, 2);
    LookupAt(ms, 3);
  }

  /** What travels over the wire decodes back to the same body. */
  lemma BodyRoundTrip(p: Payload)
    ensures Decode(Encode(Body(p))) == Some(Body(p))
  {
    BodyFields(p);
    DecodeEncode(Body(p));
  }

  /** A failed reply always leaves a message; a non-ok one never an empty one. */
  lemma ReplyFailureMeaning(reply: PostReply)
    ensures ReplyFailure(reply).None? <==> reply.Ok? && reply.success
    ensures reply.NotOk? || reply.Ok? ==> ReplyFailure(reply).None? || ReplyFailure(reply).value != ""
  {
  }

  // ---------------------------------------------------------------------------
  // The component
  // ---------------------------------------------------------------------------

  class WritePostPage {
    var title: string
    var content: string
    var category: string
    var isLoading: bool
    var error: Option<string>

    /** An empty draft in the "all" category. */
    constructor ()
      ensures title == "" && content == "" && category == InitialCategory
      ensures !isLoading && error.None?
    {
      title, content, category := "", "", InitialCategory;
      isLoading, error := false, None;
    }

    /** handleInputChange: sets the one field it is given. */
    method HandleInputChange(field: Field, value: string)
      modifies this
      ensures title == (if field == Title then value else old(title))
      ensures content == (if field == Content then value else old(content))
      ensures category == (if field == Category then value else old(category))
      ensures isLoading == old(isLoading) && error == old(error)
    {
      match field
      case Title => title := value;
      case Content => content := value;
      case Category => category := value;
    }

    /**
     * handleSubmit.  A draft that fails a guard only raises that guard's
     * alert.  Otherwise the request is sent only when the user has an id
     * token, the error shown is SubmitError, a successful write alerts and
     * goes home, and isLoading ends false.  The draft is never changed.
     */
    method HandleSubmit(user: Option<CurrentUser>, reply: PostReply)
      returns (alert: Option<string>, sent: Option<Payload>, navigateTo: Option<string>)
      modifies this
      ensures title == old(title) && content == old(content) && category == old(category)
      ensures SubmitGuard(title, content).Some? ==>
        && alert == SubmitGuard(title, content) && sent.None? && navigateTo.None?
        && isLoading == old(isLoading) && error == old(error)
      ensures SubmitGuard(title, content).None? ==>
        && !isLoading
        && error == SubmitError(user, reply)
        && sent == (if Token(user).Some? then Some(PayloadOf(title, content, category, user)) else None)
        && (navigateTo.Some? <==> error.None?)
        && (error.None? ==> alert == Some(WrittenMessage) && navigateTo == Some("/"))
        && (error.Some? ==> alert.None?)
    {
      alert, sent, navigateTo := None, None, None;
      if Trim(JavaScript, title) == "" {
        alert := Some(TitleRequired);
        return;
      }
      if Trim(JavaScript, content) == "" {
        alert := Some(ContentRequired);
        return;
      }
      if Utf16Length(Trim(JavaScript, content)) < MinContentLength {
        alert := Some(ContentTooShort);
        return;
      }
      isLoading, error := true, None;
      var token := Token(user);
      if token.None? {
        error := Some(NoTokenMessage);
      } else {
        sent := Some(Payload(Trim(JavaScript, title), Trim(JavaScript, content), Author(user), category));
        match reply
        case NotOk(m) =>
          error := Some(if TruthyText(m) then m.value else WriteFailedMessage);
        case Ok(success, m) =>
          if success {
            alert := Some(WrittenMessage);
            navigateTo := Some("/");
          } else {
            error := Some(if TruthyText(m) then m.value else WriteFailedMessage);
          }
        case Thrown(m) =>
          error := Some(m);
      }
      isLoading := false;
    }

    /**
     * handleCancel: asks for confirmation only when the draft is not blank,
     * and goes home unless the user declined.
     */
    method HandleCancel(confirmed: bool) returns (asked: Option<string>, navigateTo: Option<string>)
      ensures asked.Some? <==> HasDraft(title, content)
      ensures asked.Some? ==> asked.value == DiscardPrompt
      ensures navigateTo.Some? <==> !HasDraft(title, content) || confirmed
      ensures navigateTo.Some? ==> navigateTo.value == "/"
    {
      asked, navigateTo := None, None;
      if Trim(JavaScript, title) != "" || Trim(JavaScript, content) != "" {
        asked := Some(DiscardPrompt);
        if confirmed {
          navigateTo := Some("/");
        }
      } else {
        navigateTo := Some("/");
      }
    }
  }
}
