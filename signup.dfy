/**
 * The sign-up form (src/components/SignupPage.js): the per-field validation
 * rules, the error clearing on input, and the reading of the identity
 * provider's sign-up answer.  The request itself is a parameter: the method
 * that submits receives what the provider answered.
 */
module Signup {
  import opened Wrappers
  import opened Text

  const IdRequired: string := "아이디를 입력해주세요"
  const IdTooShort: string := "아이디는 4자 이상이어야 합니다"
  const IdCharset: string := "아이디는 영문, 숫자, 언더스코어만 사용 가능합니다"
  const EmailRequired: string := "이메일을 입력해주세요"
  const EmailMalformed: string := "올바른 이메일 형식을 입력해주세요"
  const PasswordRequired: string := "비밀번호를 입력해주세요"
  const PasswordTooShort: string := "비밀번호는 6자 이상이어야 합니다"
  const ConfirmRequired: string := "비밀번호 확인을 입력해주세요"
  const ConfirmMismatch: string := "비밀번호가 일치하지 않습니다"

  // ---------------------------------------------------------------------------
  // Character classes
  // ---------------------------------------------------------------------------

  predicate IsWordChar(c: char) {
    ('a' <= c <= 'z') || ('A' <= c <= 'Z') || ('0' <= c <= '9') || c == '_'
  }

  /** `/^[a-zA-Z0-9_]+$/.test(s)`. */
  predicate WordOnly(s: string) {
    |s| > 0 && forall k :: 0 <= k < |s| ==> IsWordChar(s[k])
  }

  /** Every character of `s[lo..hi]` matches `\S`. */
  predicate NoSpaceIn(s: string, lo: int, hi: int)
    requires 0 <= lo <= hi <= |s|
  {
    forall i :: lo <= i < hi ==> !IsJsSpace(s[i])
  }

  /** '@' at `j` and '.' at `k`, with a non-space character before the '@', only non-space characters between, and one after the '.'. */
  predicate EmailAt(s: string, j: int, k: int) {
    1 <= j && j + 1 < k && k + 1 < |s| && s[j] == '@' && s[k] == '.'
    && !IsJsSpace(s[j - 1]) && NoSpaceIn(s, j + 1, k) && !IsJsSpace(s[k + 1])
  }

  /** `/\S+@\S+\.\S+/.test(s)`, unanchored. */
  predicate EmailShaped(s: string) {
    exists j, k | 0 <= j < |s| && 0 <= k < |s| :: EmailAt(s, j, k)
  }

  /** One match of the pattern: `s[a..j]`, '@', `s[j + 1..k]`, '.', `s[k + 1..e]`, each run non-empty and free of space. */
  predicate MatchAt(s: string, a: int, j: int, k: int, e: int) {
    0 <= a < j && j + 1 < k && k + 1 < e <= |s|
    && s[j] == '@' && s[k] == '.'
    && NoSpaceIn(s, a, j) && NoSpaceIn(s, j + 1, k) && NoSpaceIn(s, k + 1, e)
  }

  /** EmailShaped holds exactly when the pattern matches somewhere in the text. */
  lemma EmailShapedIff(s: string)
    ensures EmailShaped(s) <==> exists a, j, k, e :: MatchAt(s, a, j, k, e)
  {
    if EmailShaped(s) {
      var j, k :| 0 <= j < |s| && 0 <= k < |s| && EmailAt(s, j, k);
      assert 1 <= j && j + 1 < k && k + 1 < |s|;
      assert NoSpaceIn(s, j - 1, j) && NoSpaceIn(s, k + 1, k + 2);
      assert MatchAt(s, j - 1, j, k, k + 2);
    }
    if exists a, j, k, e :: MatchAt(s, a, j, k, e) {
      var a, j, k, e :| MatchAt(s, a, j, k, e);
      assert EmailAt(s, j, k);
    }
  }

  // ---------------------------------------------------------------------------
  // The rules
  // ---------------------------------------------------------------------------

  /**
   * The id rules in order; the length and the character set are checked on the
   * untrimmed value, and the length is JavaScript's, in UTF-16 code units.
   */
  function IdError(id: string): Option<string> {
    if Trim(JavaScript, id) == "" then Some(IdRequired)
    else if Utf16Length(id) < 4 then Some(IdTooShort)
    else if !WordOnly(id) then Some(IdCharset)
    else None
  }

  function EmailError(email: string): Option<string> {
    if Trim(JavaScript, email) == "" then Some(EmailRequired)
    else if !EmailShaped(email) then Some(EmailMalformed)
    else None
  }

  function PasswordError(password: string): Option<string> {
    if password == "" then Some(PasswordRequired)
    else if Utf16Length(password) < 6 then Some(PasswordTooShort)
    else None
  }

  function ConfirmError(password: string, confirm: string): Option<string> {
    if confirm == "" then Some(ConfirmRequired)
    else if password != confirm then Some(ConfirmMismatch)
    else None
  }

  /** A word character is never white space. */
  lemma WordCharNotSpace(c: char)
    requires IsWordChar(c)
    ensures !IsJsSpace(c)
  {
  }

  /** A word-only id is ASCII, so its JavaScript length is its character count. */
  lemma WordOnlyLength(id: string)
    requires WordOnly(id)
    ensures Utf16Length(id) == |id|
  {
    assert InBmp(id) by {
      forall k | 0 <= k < |id| ensures id[k] as int < 0x1_0000 {
        assert IsWordChar(id[k]);
      }
    }
    Utf16LengthBmp(id);
  }

  /**
   * An id is accepted exactly when it has at least four characters, all of them
   * letters, digits or '_'; a non-blank id of four UTF-16 units with another
   * character gets the character-set message.
   */
  lemma IdAccepted(id: string)
    ensures IdError(id).None? <==> |id| >= 4 && WordOnly(id)
    ensures Utf16Length(id) >= 4 && !WordOnly(id) && Trim(JavaScript, id) != "" ==> IdError(id) == Some(IdCharset)
  {
    if WordOnly(id) {
      WordOnlyLength(id);
      WordCharNotSpace(id[0]);
      TrimEmptyIff(JavaScript, id);
    }
  }

  /** Two emoji are four UTF-16 units: the id passes the length rule and fails the character set. */
  lemma AstralIdCharset()
    ensures IdError("\U{1F600}\U{1F600}") == Some(IdCharset)
  {
    var id := "\U{1F600}\U{1F600}";
    assert Utf16Length(id) == 4 by {
      assert id[1..][1..] == [];
    }
    assert !IsWordChar(id[0]);
    assert id[0] != ' ';
  }

  /** An e-mail address is accepted exactly when the pattern matches somewhere in it. */
  lemma EmailAccepted(email: string)
    ensures EmailError(email).None? <==> EmailShaped(email)
  {
    if EmailShaped(email) {
      var j, k :| 0 <= j < |email| && 0 <= k < |email| && EmailAt(email, j, k);
      TrimEmptyIff(JavaScript, email);
      assert !IsSpace(JavaScript, email[j]);
    }
  }

  /** A password is accepted from six UTF-16 units on; the confirmation must equal it. */
  lemma PasswordsAccepted(password: string, confirm: string)
    ensures PasswordError(password).None? <==> Utf16Length(password) >= 6
    ensures InBmp(password) ==> (PasswordError(password).None? <==> |password| >= 6)
    ensures ConfirmError(password, confirm).None? <==> confirm != "" && confirm == password
  {
    Utf16LengthBmp(password);
  }

  /** Three emoji are six UTF-16 units, so the password is long enough. */
  lemma AstralPasswordAccepted()
    ensures |"\U{1F600}\U{1F600}\U{1F600}"| == 3
    ensures PasswordError("\U{1F600}\U{1F600}\U{1F600}") == None
  {
    var p := "\U{1F600}\U{1F600}\U{1F600}";
    assert Utf16Length(p) == 6 by {
      assert p[1..][1..][1..] == [];
    }
  }

  // ---------------------------------------------------------------------------
  // The form
  // ---------------------------------------------------------------------------

  /** The form's fields, as the inputs name them. */
  const FieldNames: seq<string> := ["id", "email", "password", "confirmPassword"]

  /** The error map holding each message that is present, under its field's name. */
  function Recorded(id: Option<string>, email: Option<string>, password: Option<string>, confirm: Option<string>): (r: map<string, string>)
    ensures "id" in r <==> id.Some?
    ensures "email" in r <==> email.Some?
    ensures "password" in r <==> password.Some?
    ensures "confirmPassword" in r <==> confirm.Some?
    ensures forall key :: key in r ==> key in FieldNames
    ensures r == map[] <==> id.None? && email.None? && password.None? && confirm.None?
  {
    assert |"id"| == 2 && |"email"| == 5 && |"password"| == 8 && |"confirmPassword"| == 15;
    var a := if id.Some? then map["id" := id.value] else map[];
    var b := if email.Some? then a["email" := email.value] else a;
    var c := if password.Some? then b["password" := password.value] else b;
    var r := if confirm.Some? then c["confirmPassword" := confirm.value] else c;
    assert id.Some? ==> "id" in r;
    r
  }

  /** The errors validateForm records for these values: one message per failing field. */
  function FormErrors(id: string, email: string, password: string, confirm: string): map<string, string> {
    Recorded(IdError(id), EmailError(email), PasswordError(password), ConfirmError(password, confirm))
  }

  /** The form is valid exactly when every field passes its rules. */
  lemma FormValidIff(id: string, email: string, password: string, confirm: string)
    ensures FormErrors(id, email, password, confirm) == map[] <==>
      |id| >= 4 && WordOnly(id) && EmailShaped(email) && Utf16Length(password) >= 6 && confirm == password
  {
    IdAccepted(id);
    EmailAccepted(email);
    PasswordsAccepted(password, confirm);
  }

  /** What the identity provider answered to the sign-up request. */
  datatype SignupReply =
    | Accepted(userSub: Option<string>)                          // an ok response and its `UserSub`
    | Rejected(errorType: Option<string>, message: Option<string>) // a response that is not ok, its `__type` and `message`
    | NetworkFailure                                               // fetch or the body parse threw

  /** The record handed to onSignup. */
  datatype SignupUser = SignupUser(username: string, sub: string, email: string)

  /** The general error for a failed sign-up; None for a successful one. */
  function ReplyError(reply: SignupReply): (r: Option<string>)
    ensures r.None? <==> reply.Accepted? && reply.userSub.Some? && reply.userSub.value != ""
  {
    match reply
    case Accepted(sub) =>
      if sub.Some? && sub.value != "" then None else Some("회원가입에 실패했습니다.")
    case Rejected(kind, message) =>
      if kind == Some("UsernameExistsException") then Some("이미 존재하는 사용자 이름입니다.")
      else if kind == Some("InvalidPasswordException") then Some("비밀번호가 요구사항을 충족하지 않습니다.")
      else if kind == Some("InvalidParameterException") then Some("입력된 정보가 올바르지 않습니다.")
      else Some("회원가입 오류: " + (if message.Some? && message.value != "" then message.value else "알 수 없는 오류"))
    case NetworkFailure => Some("네트워크 오류가 발생했습니다.")
  }

  /** An unrecognised error type is reported with the provider's own message. */
  lemma UnknownErrorCarriesMessage(kind: Option<string>, message: string)
    requires kind !in {Some("UsernameExistsException"), Some("InvalidPasswordException"), Some("InvalidParameterException")}
    requires message != ""
    ensures ReplyError(Rejected(kind, Some(message))).Some?
    ensures Contains(ReplyError(Rejected(kind, Some(message))).value, message)
  {
    var prefix := "회원가입 오류: ";
    var text := prefix + message;
    assert ReplyError(Rejected(kind, Some(message))).value == text;
    assert text[|prefix|..|prefix| + |message|] == message;
    assert OccursAt(text, message, |prefix|);
  }

  /**
   * The id branch of validateForm: the first rule the id breaks, in the order
   * blank, shorter than four UTF-16 units, a character outside [a-zA-Z0-9_].
   */
  method CheckId(id: string) returns (m: Option<string>)
    ensures m == Some(IdRequired) <==> Trim(JavaScript, id) == ""
    ensures m == Some(IdTooShort) <==> Trim(JavaScript, id) != "" && Utf16Length(id) < 4
    ensures m == Some(IdCharset) <==> Trim(JavaScript, id) != "" && Utf16Length(id) >= 4 && !WordOnly(id)
    ensures m.None? <==> |id| >= 4 && WordOnly(id)
    ensures m == IdError(id)
  {
    IdAccepted(id);
    m := None;
    if Trim(JavaScript, id) == "" {
      m := Some(IdRequired);
    } else if Utf16Length(id) < 4 {
      m := Some(IdTooShort);
    } else if !WordOnly(id) {
      m := Some(IdCharset);
    }
  }

  /** The email branch of validateForm: blank first, then the address pattern. */
  method CheckEmail(email: string) returns (m: Option<string>)
    ensures m == Some(EmailRequired) <==> Trim(JavaScript, email) == ""
    ensures m == Some(EmailMalformed) <==> Trim(JavaScript, email) != "" && !EmailShaped(email)
    ensures m.None? <==> EmailShaped(email)
    ensures m == EmailError(email)
  {
    EmailAccepted(email);
    m := None;
    if Trim(JavaScript, email) == "" {
      m := Some(EmailRequired);
    } else if !EmailShaped(email) {
      m := Some(EmailMalformed);
    }
  }

  /** The password branch of validateForm: empty first, then shorter than six UTF-16 units. */
  method CheckPassword(password: string) returns (m: Option<string>)
    ensures m == Some(PasswordRequired) <==> password == ""
    ensures m == Some(PasswordTooShort) <==> password != "" && Utf16Length(password) < 6
    ensures m.None? <==> Utf16Length(password) >= 6
    ensures m == PasswordError(password)
  {
    m := None;
    if password == "" {
      m := Some(PasswordRequired);
    } else if Utf16Length(password) < 6 {
      m := Some(PasswordTooShort);
    }
  }

  /** The confirmation branch of validateForm: empty first, then different from the password. */
  method CheckConfirm(password: string, confirm: string) returns (m: Option<string>)
    ensures m == Some(ConfirmRequired) <==> confirm == ""
    ensures m == Some(ConfirmMismatch) <==> confirm != "" && confirm != password
    ensures m.None? <==> confirm != "" && confirm == password
    ensures m == ConfirmError(password, confirm)
  {
    m := None;
    if confirm == "" {
      m := Some(ConfirmRequired);
    } else if password != confirm {
      m := Some(ConfirmMismatch);
    }
  }

  class SignupPage {
    var formData: map<string, string>
    var errors: map<string, string>
    var isLoading: bool

    /** Every field the form reads is present. */
    ghost predicate Valid()
      reads this`formData
    {
      "id" in formData && "email" in formData && "password" in formData && "confirmPassword" in formData
    }

    /** The initial state: every field empty, no errors. */
    constructor ()
      ensures Valid()
      ensures formData == map["id" := "", "email" := "", "password" := "", "confirmPassword" := ""]
      ensures errors == map[] && !isLoading
    {
      formData := map["id" := "", "email" := "", "password" := "", "confirmPassword" := ""];
      errors := map[];
      isLoading := false;
    }

    /** handleChange: sets the named field, and blanks that field's error only when one is shown. */
    method HandleChange(name: string, value: string)
      requires Valid()
      modifies this
      ensures Valid()
      ensures formData == old(formData)[name := value]
      ensures errors == if name in old(errors) && old(errors)[name] != "" then old(errors)[name := ""] else old(errors)
      ensures isLoading == old(isLoading)
    {
      formData := formData[name := value];
      if name in errors && errors[name] != "" {
        errors := errors[name := ""];
      }
    }

    /** The field errors validateForm records for the current form. */
    ghost function FieldErrors(): map<string, string>
      requires Valid()
      reads this`formData
    {
      FormErrors(formData["id"], formData["email"], formData["password"], formData["confirmPassword"])
    }

    /** validateForm: records one message per failing field, and answers whether none failed. */
    method ValidateForm() returns (ok: bool)
      requires Valid()
      modifies this
      ensures Valid() && formData == old(formData) && isLoading == old(isLoading)
      ensures errors == FieldErrors()
      ensures ok <==> errors == map[]
    {
      var id, email := formData["id"], formData["email"];
      var password, confirm := formData["password"], formData["confirmPassword"];
      var idMsg := CheckId(id);
      var emailMsg := CheckEmail(email);
      var passwordMsg := CheckPassword(password);
      var confirmMsg := CheckConfirm(password, confirm);
      var newErrors := Recorded(idMsg, emailMsg, passwordMsg, confirmMsg);
      assert newErrors == FormErrors(id, email, password, confirm);
      errors := newErrors;
      ok := newErrors == map[];
    }

    /**
     * handleSubmit: an invalid form sends nothing; otherwise the provider's
     * answer either signs the user up (the record for onSignup and the login
     * page to go to) or shows one general error.  isLoading ends false.
     */
    method HandleSubmit(reply: SignupReply) returns (signedUp: Option<SignupUser>, navigateTo: Option<string>)
      requires Valid()
      modifies this
      ensures Valid() && formData == old(formData)
      ensures FieldErrors() != map[] ==>
        errors == FieldErrors() && signedUp.None? && navigateTo.None? && isLoading == old(isLoading)
      ensures FieldErrors() == map[] && ReplyError(reply).None? ==>
        && errors == map[] && !isLoading && navigateTo == Some("/login")
        && signedUp == Some(SignupUser(formData["id"], reply.userSub.value, formData["email"]))
      ensures FieldErrors() == map[] && ReplyError(reply).Some? ==>
        errors == map["general" := ReplyError(reply).value] && signedUp.None? && navigateTo.None? && !isLoading
    {
      var id, email := formData["id"], formData["email"];
      var ok := ValidateForm();
      if !ok {
        return None, None;
      }
      isLoading := true;
      if reply.Accepted? && reply.userSub.Some? && reply.userSub.value != "" {
        signedUp := Some(SignupUser(id, reply.userSub.value, email));
        navigateTo := Some("/login");
      } else {
        errors := map["general" := ReplyError(reply).value];
        signedUp, navigateTo := None, None;
      }
      isLoading := false;
    }
  }
}
