/**
 * The page frame of the Front/ client (Front/src/components/CommonLayout.js):
 * the name and initial shown for the signed-in user, what the write and
 * logout buttons do, and which category button is highlighted.  The current
 * user is the JSON value App keeps (JNull when nobody is signed in).
 */
module CommonLayout {
  import opened Wrappers
  import opened Text
  import opened Json

  const FallbackName: string := "사용자"

  /** The sidebar's category buttons, in order. */
  const Categories: seq<string> := ["전체", "동물/반려동물", "여행", "건강/헬스", "연예인"]

  /**
   * `currentUser?.email?.split('@')[0]`: None for `undefined` (no user, no
   * e-mail, or a null one), Some(None) when `split` is not a function of the
   * value and the expression throws a TypeError, Some(Some(part)) otherwise.
   */
  function EmailPart(currentUser: Json): Option<Option<string>> {
    var email := Get(currentUser, "email");
    if email.None? || email.value == JNull then None
    else if email.value.JStr? then Some(Some(BeforeFirst(email.value.s, '@')))
    else Some(None)
  }

  /**
   * displayUsername: the first truthy value among the user's username, sub
   * and e-mail part, and "사용자" when none is.  None when evaluating the
   * e-mail part throws.
   */
  function DisplayUsername(currentUser: Json): Option<Json> {
    var username := Get(currentUser, "username");
    var sub := Get(currentUser, "sub");
    if Truthy(username) then Some(username.value)
    else if Truthy(sub) then Some(sub.value)
    else match EmailPart(currentUser)
      case None => Some(JStr(FallbackName))
      case Some(None) => None
      case Some(Some(part)) => Some(JStr(if part != "" then part else FallbackName))
  }

  /**
   * displayInitial: the display name's first character, upper-cased.  None
   * when the display name throws or is not a string, so that `charAt` is not
   * a function of it.
   */
  function DisplayInitial(currentUser: Json): Option<string> {
    match DisplayUsername(currentUser)
    case Some(JStr(name)) => Some(if name == "" then "" else [UpperChar(name[0])])
    case _ => None
  }

  /** A record whose username, sub and email are each a string or absent, as the sign-in pages store it. */
  predicate StringFields(currentUser: Json) {
    forall k :: k in {"username", "sub", "email"} ==> Get(currentUser, k).None? || Get(currentUser, k).value.JStr?
  }

  /**
   * The display name is never empty.  A truthy username wins; otherwise a
   * truthy sub; otherwise the e-mail's text before its first '@' when that is
   * not empty (and it holds no '@'); otherwise "사용자".  For a record of
   * string fields it never throws and is a string.
   */
  lemma DisplayUsernameMeaning(currentUser: Json)
    ensures DisplayUsername(currentUser).Some? ==> JsTruthy(DisplayUsername(currentUser).value)
    ensures Truthy(Get(currentUser, "username")) ==> DisplayUsername(currentUser) == Get(currentUser, "username")
    ensures !Truthy(Get(currentUser, "username")) && Truthy(Get(currentUser, "sub")) ==>
      DisplayUsername(currentUser) == Get(currentUser, "sub")
    ensures !Truthy(Get(currentUser, "username")) && !Truthy(Get(currentUser, "sub")) ==>
      match Get(currentUser, "email")
      case Some(JStr(e)) =>
        && (BeforeFirst(e, '@') != "" ==> DisplayUsername(currentUser) == Some(JStr(BeforeFirst(e, '@'))))
        && (BeforeFirst(e, '@') == "" ==> DisplayUsername(currentUser) == Some(JStr(FallbackName)))
        && '@' !in BeforeFirst(e, '@')
      case Some(JNull) => DisplayUsername(currentUser) == Some(JStr(FallbackName))
      case None => DisplayUsername(currentUser) == Some(JStr(FallbackName))
      case Some(_) => DisplayUsername(currentUser).None?
    ensures StringFields(currentUser) ==> DisplayUsername(currentUser).Some? && DisplayUsername(currentUser).value.JStr?
  {
    if StringFields(currentUser) {
      assert "username" in {"username", "sub", "email"};
      assert "sub" in {"username", "sub", "email"};
      assert "email" in {"username", "sub", "email"};
    }
  }

  /** For a record of string fields the initial is one character: the display name's first, upper-cased. */
  lemma DisplayInitialMeaning(currentUser: Json)
    requires StringFields(currentUser)
    ensures var name := DisplayUsername(currentUser).value.s;
      && name != ""
      && DisplayInitial(currentUser) == Some([UpperChar(name[0])])
  {
    DisplayUsernameMeaning(currentUser);
  }

  /** What a handler does: call a callback of the parent, navigate, or nothing. */
  datatype Action = CallOnWritePost | CallOnLogout | Navigate(path: string) | NoAction

  /** handleWritePostClick, given whether `onWritePost` is provided. */
  function WriteAction(hasOnWritePost: bool): (r: Action)
    ensures r == CallOnWritePost <==> hasOnWritePost
    ensures !hasOnWritePost ==> r == Navigate("/write")
  {
    if hasOnWritePost then CallOnWritePost else Navigate("/write")
  }

  /** handleLogoutClick, given whether `onLogout` is provided: it never navigates by itself. */
  function LogoutAction(hasOnLogout: bool): (r: Action)
    ensures r == CallOnLogout <==> hasOnLogout
    ensures !r.Navigate?
  {
    if hasOnLogout then CallOnLogout else NoAction
  }

  /** `activeCategory === category`: only a string equal to the button's name highlights it. */
  predicate CategoryActive(activeCategory: Option<Json>, category: string) {
    activeCategory == Some(JStr(category))
  }

  /** At most one sidebar button is highlighted, and exactly one when the active category is one of them. */
  lemma OneActiveCategory(activeCategory: Option<Json>)
    ensures forall i, j :: 0 <= i < j < |Categories| ==> !(CategoryActive(activeCategory, Categories[i]) && CategoryActive(activeCategory, Categories[j]))
    ensures (exists i :: 0 <= i < |Categories| && CategoryActive(activeCategory, Categories[i])) <==>
      activeCategory.Some? && activeCategory.value.JStr? && activeCategory.value.s in Categories
  {
    assert |Categories[0]| == 2 && |Categories[1]| == 7 && |Categories[2]| == 2 && |Categories[3]| == 5 && |Categories[4]| == 3;
    assert Categories[0] != Categories[2] by { assert Categories[0][0] != Categories[2][0]; }
  }
}
