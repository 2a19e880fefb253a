/**
 * The post service's request handlers (Post-master/post/routes.py): the
 * response envelopes, the upload-name check, the post listing query, and the
 * store of posts, likes and recent views the handlers update.
 *
 * The database is an in-memory store; SQLite semantics are written out where
 * a handler depends on them (LIKE matching, how a JSON value is bound to a
 * text column).  Request bodies arrive already parsed: `None` stands for a
 * body that is not JSON, which makes Flask raise inside the handler.
 */
module PostRoutes {
  import opened Wrappers
  import opened Text
  import opened Json
  import opened Lists
  import opened Sorting
  import opened PostModels

  // ---------------------------------------------------------------------------
  // Response envelopes
  // ---------------------------------------------------------------------------

  /** A status code and the JSON body `jsonify` writes. */
  datatype Response = Response(status: int, body: Json)

  /** `api_response(data, message, status_code, meta)`. */
  function ApiResponse(data: Json, message: string, status: int, meta: Json): (r: Response)
    ensures r.status == status
  {
    var base := [Member("success", JBool(status < 400)), Member("message", JStr(message)), Member("data", data)];
    if PyTruthy(meta) then Response(status, JObj(base + [Member("meta", meta)])) else Response(status, JObj(base))
  }

  /** The envelope's success flag is `status < 400`; it carries the message and data, and "meta" only when that is truthy. */
  lemma ApiResponseFields(data: Json, message: string, status: int, meta: Json)
    ensures var r := ApiResponse(data, message, status, meta);
      && r.body.JObj? && DistinctKeys(r.body.members)
      && Get(r.body, "success") == Some(JBool(status < 400))
      && Get(r.body, "message") == Some(JStr(message))
      && Get(r.body, "data") == Some(data)
      && (HasKey(r.body.members, "meta") <==> PyTruthy(meta))
      && (PyTruthy(meta) ==> Get(r.body, "meta") == Some(meta))
  {
    var base := [Member("success", JBool(status < 400)), Member("message", JStr(message)), Member("data", data)];
    EnvelopeFields(base);
    if PyTruthy(meta) {
      EnvelopeMeta(base, meta);
    }
  }

  /** The three members every envelope starts with: distinct names, each found, and no "meta". */
  lemma EnvelopeFields(base: seq<Member>)
    requires |base| == 3 && base[0].key == "success" && base[1].key == "message" && base[2].key == "data"
    ensures DistinctKeys(base) && !HasKey(base, "meta")
    ensures Lookup(base, "success") == Some(base[0].value)
    ensures Lookup(base, "message") == Some(base[1].value)
    ensures Lookup(base, "data") == Some(base[2].value)
  {
    assert "success"[0] == 's' && "message"[0] == 'm' && "data"[0] == 'd' && "meta"[0] == 'm';
    assert |"success"| == 7 && |"message"| == 7 && |"data"| == 4 && |"meta"| == 4;
    assert DistinctKeys(base);
    LookupAt(base, 1);
    LookupAt(base, 2);
  }

  /** Appending "meta" to the three envelope members keeps the names distinct and each lookup. */
  lemma EnvelopeMeta(base: seq<Member>, meta: Json)
    requires |base| == 3 && DistinctKeys(base) && !HasKey(base, "meta")
    ensures var ms := base + [Member("meta", meta)];
      && DistinctKeys(ms) && Lookup(ms, "meta") == Some(meta)
      && forall k :: k != "meta" ==> Lookup(ms, k) == Lookup(base, k)
  {
    assert Put(base, "meta", meta) == base + [Member("meta", meta)];
  }

  /** `api_error(message, status_code, details)`. */
  function ApiError(message: string, status: int, details: Json): (r: Response)
    ensures r.status == status
  {
    Response(status, JObj([Member("success", JBool(false)), Member("message", JStr(message)),
                           Member("error", JObj([Member("code", JNum(status)), Member("details", details)]))]))
  }

  /** The error envelope is unsuccessful, carries the message, and nests the status as "code" beside the details. */
  lemma ApiErrorFields(message: string, status: int, details: Json)
    ensures var r := ApiError(message, status, details);
      && r.body.JObj? && DistinctKeys(r.body.members)
      && Get(r.body, "success") == Some(JBool(false))
      && Get(r.body, "message") == Some(JStr(message))
      && Get(r.body, "error").Some?
      && Get(Get(r.body, "error").value, "code") == Some(JNum(status))
      && Get(Get(r.body, "error").value, "details") == Some(details)
  {
    var err := [Member("code", JNum(status)), Member("details", details)];
    var ms := [Member("success", JBool(false)), Member("message", JStr(message)), Member("error", JObj(err))];
    assert ApiError(message, status, details).body.members == ms;
    assert DistinctKeys(ms) by {
      forall i, j | 0 <= i < j < |ms| ensures ms[i].key != ms[j].key {
        assert ms[i].key[0] != ms[j].key[0];
      }
    }
    assert DistinctKeys(err) by {
      assert err[0].key[0] != err[1].key[0];
    }
    LookupAt(ms, 1);
    LookupAt(ms, 2);
    LookupAt(err, 1);
  }

  /** A bare `jsonify({'error': message})`, which create_post answers with. */
  function ErrorBody(message: string): Json {
    JObj([Member("error", JStr(message))])
  }

  /** A bare `jsonify({"success": False, "message": message})`, which toggle_like answers with. */
  function FailureBody(message: string): Json {
    JObj([Member("success", JBool(false)), Member("message", JStr(message))])
  }

  // ---------------------------------------------------------------------------
  // allowed_file
  // ---------------------------------------------------------------------------

  const AllowedExtensions: set<string> := {"png", "jpg", "jpeg", "gif", "webp"}

  /**
   * `allowed_file(filename)`: a '.' is present and the lower-cased text after
   * the last one is an image extension.  No character outside Latin-1 lowers
   * into one of these extensions, so the Latin-1 map is exact here.
   */
  function AllowedFile(filename: string): bool {
    '.' in filename && Lower(AfterLast(filename, '.')) in AllowedExtensions
  }

  /** The text after the last '.' starts right after a '.', and no later '.' has a dot-free rest. */
  lemma LastDot(filename: string) returns (i: nat)
    requires '.' in filename
    ensures i < |filename| && filename[i] == '.' && filename[i + 1..] == AfterLast(filename, '.')
    ensures forall j :: 0 <= j < |filename| && filename[j] == '.' && '.' !in filename[j + 1..] ==> j == i
  {
    var ext := AfterLast(filename, '.');
    var n := |filename|;
    i := n - |ext| - 1;
    forall j | 0 <= j < n && filename[j] == '.' && '.' !in filename[j + 1..]
      ensures j == i
    {
    }
  }

  /** allowed_file holds exactly when some '.' has no '.' after it and what follows it is an allowed extension. */
  lemma AllowedFileIff(filename: string)
    ensures AllowedFile(filename) <==>
      exists i :: 0 <= i < |filename| && filename[i] == '.' && '.' !in filename[i + 1..]
                  && Lower(filename[i + 1..]) in AllowedExtensions
  {
    if AllowedFile(filename) {
      var i := LastDot(filename);
      assert 0 <= i < |filename| && filename[i] == '.' && '.' !in filename[i + 1..]
             && Lower(filename[i + 1..]) in AllowedExtensions;
    }
    if exists j :: 0 <= j < |filename| && filename[j] == '.' && '.' !in filename[j + 1..]
                   && Lower(filename[j + 1..]) in AllowedExtensions {
      var j :| 0 <= j < |filename| && filename[j] == '.' && '.' !in filename[j + 1..]
               && Lower(filename[j + 1..]) in AllowedExtensions;
      var i := LastDot(filename);
      assert j == i;
    }
  }

  // ---------------------------------------------------------------------------
  // Python int() on a query argument
  // ---------------------------------------------------------------------------

  /**
   * The first code point of each run of ten decimal digits (general category
   * Nd) of Unicode 15.0 other than the ASCII and fullwidth runs, in increasing
   * order; `int()` reads a digit of any of these scripts.
   */
  const OtherDecimalZeros: seq<int> := [
    0x660, 0x6F0, 0x7C0, 0x966, 0x9E6, 0xA66, 0xAE6, 0xB66, 0xBE6,
    0xC66, 0xCE6, 0xD66, 0xDE6, 0xE50, 0xED0, 0xF20, 0x1040, 0x1090, 0x17E0,
    0x1810, 0x1946, 0x19D0, 0x1A80, 0x1A90, 0x1B50, 0x1BB0, 0x1C40, 0x1C50, 0xA620,
    0xA8D0, 0xA900, 0xA9D0, 0xA9F0, 0xAA50, 0xABF0, 0x104A0, 0x10D30, 0x11066,
    0x110F0, 0x11136, 0x111D0, 0x112F0, 0x11450, 0x114D0, 0x11650, 0x116C0, 0x11730, 0x118E0,
    0x11950, 0x11C50, 0x11D50, 0x11DA0, 0x11F50, 0x16A60, 0x16AC0, 0x16B50, 0x1D7CE, 0x1D7D8,
    0x1D7E2, 0x1D7EC, 0x1D7F6, 0x1E140, 0x1E2F0, 0x1E4F0, 0x1E950, 0x1FBF0
  ]

  /** The digit value of `c` when it lies in one of the other runs from the i-th on. */
  function DecimalFrom(c: char, i: nat): (r: Option<nat>)
    ensures r.Some? ==> r.value < 10
    decreases |OtherDecimalZeros| - i
  {
    if i >= |OtherDecimalZeros| then None
    else if OtherDecimalZeros[i] <= c as int < OtherDecimalZeros[i] + 10 then Some(c as int - OtherDecimalZeros[i])
    else DecimalFrom(c, i + 1)
  }

  /** The value `int()` gives the digit `c`, None when `c` is not a decimal digit. */
  function DecimalValue(c: char): (r: Option<nat>)
    ensures r.Some? ==> r.value < 10
  {
    if '0' <= c <= '9' then Some(c as int - '0' as int)
    else if '\U{FF10}' <= c <= '\U{FF19}' then Some(c as int - 0xFF10)
    else DecimalFrom(c, 0)
  }

  predicate IsDecimal(c: char) {
    DecimalValue(c).Some?
  }

  /** An ASCII digit is a decimal digit with its usual value. */
  lemma AsciiDecimal(c: char)
    requires IsDigit(c)
    ensures DecimalValue(c) == Some(c as int - '0' as int)
  {
  }

  /** A fullwidth digit reads as the ASCII digit of the same value. */
  lemma FullwidthDecimal(d: nat)
    requires d < 10
    ensures DecimalValue((0xFF10 + d) as char) == Some(d)
  {
  }

  /** Every character of `s` is a decimal digit. */
  predicate AllDecimal(s: string) {
    forall k :: 0 <= k < |s| ==> IsDecimal(s[k])
  }

  /** The value of a string of decimal digits of any script. */
  function DecimalsValue(s: string): nat
    requires AllDecimal(s)
  {
    if s == [] then 0 else DecimalsValue(s[..|s| - 1]) * 10 + DecimalValue(s[|s| - 1]).value
  }

  /** On ASCII digits the value is the usual one. */
  lemma {:induction false} AsciiDecimalsValue(s: string)
    requires AllDigits(s)
    ensures AllDecimal(s) && DecimalsValue(s) == DigitsValue(s)
  {
    forall k | 0 <= k < |s| ensures IsDecimal(s[k]) {
      AsciiDecimal(s[k]);
    }
    if s != [] {
      AsciiDecimalsValue(s[..|s| - 1]);
      AsciiDecimal(s[|s| - 1]);
    }
  }

  /** Decimal digits with single underscores between them, as `int()` accepts. */
  predicate DigitRun(s: string) {
    |s| > 0 && IsDecimal(s[0]) && IsDecimal(s[|s| - 1])
    && (forall k :: 0 <= k < |s| ==> IsDecimal(s[k]) || s[k] == '_')
    && (forall i, j :: 0 <= i < |s| && 0 <= j < |s| && j == i + 1 ==> IsDecimal(s[i]) || IsDecimal(s[j]))
  }

  lemma {:induction false} UnderscoresRemoved(s: string)
    requires forall k :: 0 <= k < |s| ==> IsDecimal(s[k]) || s[k] == '_'
    ensures AllDecimal(RemoveAll(s, '_'))
  {
    if s != [] {
      UnderscoresRemoved(s[1..]);
      var h := if s[0] == '_' then [] else [s[0]];
      assert RemoveAll(s, '_') == h + RemoveAll(s[1..], '_');
    }
  }

  /**
   * The most digits `int()` converts from a string: the default of
   * `sys.set_int_max_str_digits`, enforced since CPython 3.11 (and in the
   * 3.10.7 and 3.9.14 releases).
   */
  const MaxStrDigits: nat := 4300

  /** The value of a digit run of at most MaxStrDigits digits, None for anything else. */
  function DigitRunValue(body: string): Option<nat> {
    if DigitRun(body) && |RemoveAll(body, '_')| <= MaxStrDigits then
      UnderscoresRemoved(body);
      Some(DecimalsValue(RemoveAll(body, '_')))
    else
      None
  }

  /**
   * `int(text)` for a decimal string: surrounding white space, an optional
   * sign, decimal digits of any script with single underscores between them;
   * None where Python raises.
   */
  function PyInt(text: string): Option<int> {
    var t := Trim(Python, text);
    if t != [] && t[0] == '-' then
      match DigitRunValue(t[1..])
      case Some(v) => Some(-(v as int))
      case None => None
    else if t != [] && t[0] == '+' then
      match DigitRunValue(t[1..])
      case Some(v) => Some(v as int)
      case None => None
    else
      match DigitRunValue(t)
      case Some(v) => Some(v as int)
      case None => None
  }

  /** A string that neither starts nor ends with white space is its own strip. */
  lemma TrimNoop(s: string)
    requires s != [] && !IsPySpace(s[0]) && !IsPySpace(s[|s| - 1])
    ensures Trim(Python, s) == s
  {
  }

  /** A run of plain digits is a digit run without underscores, so it reads as its value unless it is too long. */
  lemma PlainDigits(ds: string)
    requires |ds| > 0 && AllDigits(ds)
    ensures DigitRun(ds) && RemoveAll(ds, '_') == ds
    ensures DigitRunValue(ds) == if |ds| <= MaxStrDigits then Some(DigitsValue(ds)) else None
  {
    assert '_' !in ds;
    RemoveAllAbsent(ds, '_');
    AsciiDecimalsValue(ds);
  }

  /** `int("３")` is 3: a fullwidth digit reads as its value. */
  lemma PyIntFullwidth()
    ensures PyInt("\U{FF13}") == Some(3)
  {
    FullwidthDecimal(3);
    var t := "\U{FF13}";
    assert t[0] == (0xFF10 + 3) as char;
    assert IsDecimal(t[0]);
    TrimNoop(t);
    assert RemoveAll(t, '_') == t;
    assert t[..0] == [];
  }

  /** A run of plain digits reads as its value; more than MaxStrDigits of them raise. */
  lemma {:induction false} PyIntDigits(ds: string)
    requires |ds| > 0 && AllDigits(ds)
    ensures PyInt(ds) == if |ds| <= MaxStrDigits then Some(DigitsValue(ds)) else None
  {
    assert IsDigit(ds[0]) && IsDigit(ds[|ds| - 1]);
    TrimNoop(ds);
    PyIntUnsigned(ds);
    PlainDigits(ds);
  }

  /** A stripped text that starts with neither sign reads as the run it is. */
  lemma PyIntUnsigned(text: string)
    requires text != [] && text[0] != '-' && text[0] != '+' && Trim(Python, text) == text
    ensures PyInt(text) == match DigitRunValue(text) case Some(v) => Some(v as int) case None => None
  {
  }

  /** A minus sign before a run of plain digits negates its value; the sign does not count towards the digit limit. */
  lemma PyIntNegative(text: string, n: nat)
    requires |text| > 1 && text[0] == '-' && AllDigits(text[1..]) && DigitsValue(text[1..]) == n
    ensures PyInt(text) == if |text| - 1 <= MaxStrDigits then Some(-(n as int)) else None
  {
    var ds := text[1..];
    assert text[|text| - 1] == ds[|ds| - 1];
    TrimNoop(text);
    PyIntMinus(text);
    PlainDigits(ds);
  }

  /** A stripped text that starts with '-' reads as the negated value of the run after it. */
  lemma PyIntMinus(text: string)
    requires text != [] && text[0] == '-' && Trim(Python, text) == text
    ensures PyInt(text) == match DigitRunValue(text[1..]) case Some(v) => Some(-(v as int)) case None => None
  {
  }

  /** `int(str(n)) == n` for every n of at most MaxStrDigits digits; a longer one raises. */
  lemma PyIntOfString(n: int)
    ensures var digits := |NatToString(if n < 0 then -n else n)|;
      PyInt(IntToString(n)) == if digits <= MaxStrDigits then Some(n) else None
  {
    var m := if n < 0 then -n else n;
    NatToStringValue(m);
    if n < 0 {
      assert IntToString(n)[1..] == NatToString(m);
      PyIntNegative(IntToString(n), m);
    } else {
      PyIntDigits(NatToString(m));
    }
  }


  // ---------------------------------------------------------------------------
  // SQLite LIKE
  // ---------------------------------------------------------------------------

  /**
   * `s LIKE pattern` in SQLite: '%' matches any run of characters, '_' any one
   * character, and other characters match ignoring ASCII case.  There is no
   * escape character.
   */
  predicate LikeMatch(pattern: string, s: string)
    decreases |pattern|
  {
    if pattern == [] then s == []
    else if pattern[0] == '%' then exists k :: 0 <= k <= |s| && LikeMatch(pattern[1..], s[k..])
    else s != [] && (pattern[0] == '_' || AsciiLowerChar(pattern[0]) == AsciiLowerChar(s[0]))
         && LikeMatch(pattern[1..], s[1..])
  }

  predicate NoWildcards(q: string) {
    '%' !in q && '_' !in q
  }

  /** `t` starts with `q`, ignoring ASCII case. */
  predicate PrefixFolded(q: string, t: string) {
    |q| <= |t| && forall k :: 0 <= k < |q| ==> AsciiLowerChar(t[k]) == AsciiLowerChar(q[k])
  }

  lemma {:induction false} LikePrefix(q: string, t: string)
    requires NoWildcards(q)
    ensures LikeMatch(q + "%", t) <==> PrefixFolded(q, t)
    decreases |q|
  {
    if q == [] {
      assert (q + "%")[1..] == [];
      assert t[|t|..] == [];
      assert LikeMatch([], t[|t|..]);
    } else if t != [] {
      assert (q + "%")[1..] == q[1..] + "%";
      LikePrefix(q[1..], t[1..]);
      if PrefixFolded(q, t) {
        assert PrefixFolded(q[1..], t[1..]) by {
          forall k | 0 <= k < |q| - 1 ensures AsciiLowerChar(t[1..][k]) == AsciiLowerChar(q[1..][k]) {
            assert t[1..][k] == t[k + 1] && q[1..][k] == q[k + 1];
          }
        }
      }
      if LikeMatch(q + "%", t) {
        forall k | 0 <= k < |q| ensures AsciiLowerChar(t[k]) == AsciiLowerChar(q[k]) {
          if k > 0 {
            assert t[1..][k - 1] == t[k] && q[1..][k - 1] == q[k];
          }
        }
      }
    }
  }

  lemma OccursFolded(q: string, s: string, i: int)
    requires 0 <= i <= |s|
    ensures OccursAt(AsciiLower(s), AsciiLower(q), i) <==> PrefixFolded(q, s[i..])
  {
    var ls, lq := AsciiLower(s), AsciiLower(q);
    if i + |q| <= |s| {
      if PrefixFolded(q, s[i..]) {
        forall k | 0 <= k < |q| ensures ls[i..i + |q|][k] == lq[k] {
          assert s[i..][k] == s[i + k];
        }
      }
      if OccursAt(ls, lq, i) {
        forall k | 0 <= k < |q| ensures AsciiLowerChar(s[i..][k]) == AsciiLowerChar(q[k]) {
          assert ls[i..i + |q|][k] == ls[i + k];
        }
      }
    }
  }

  /** Without wildcards in `q`, the listing's `LIKE '%q%'` is a substring test ignoring ASCII case. */
  lemma LikeContains(q: string, s: string)
    requires NoWildcards(q)
    ensures LikeMatch("%" + q + "%", s) <==> Contains(AsciiLower(s), AsciiLower(q))
  {
    var p := "%" + q + "%";
    assert p[0] == '%' && p[1..] == q + "%";
    if LikeMatch(p, s) {
      var k :| 0 <= k <= |s| && LikeMatch(q + "%", s[k..]);
      LikePrefix(q, s[k..]);
      OccursFolded(q, s, k);
    }
    if Contains(AsciiLower(s), AsciiLower(q)) {
      var k :| 0 <= k <= |AsciiLower(s)| && OccursAt(AsciiLower(s), AsciiLower(q), k);
      OccursFolded(q, s, k);
      LikePrefix(q, s[k..]);
    }
  }

  /** A search for "_" is not literal: it matches any non-empty title. */
  lemma UnderscoreMatchesAnything(title: string)
    requires title != []
    ensures LikeMatch("%_%", title)
  {
    var p := "%_%";
    assert p[1..] == "_%" && p[1..][1..] == "%";
    assert title[0..] == title;
    assert title[1..][|title| - 1..] == [];
    assert LikeMatch(p[1..][1..][1..], title[1..][|title| - 1..]);
    assert LikeMatch(p[1..][1..], title[1..]);
    assert LikeMatch(p[1..], title[0..]);
  }

  // ---------------------------------------------------------------------------
  // list_posts
  // ---------------------------------------------------------------------------

  /** The query string of a request, as `request.args`. */
  type Args = map<string, string>

  /** `request.args.get(k, default)`. */
  function Arg(args: Args, k: string, default: string): string {
    if k in args then args[k] else default
  }

  /** A listing request once its arguments are read; an empty status or category id means no filter. */
  datatype ListQuery = ListQuery(
    page: int,
    perPage: int,
    q: string,
    visibility: string,
    status: string,
    categoryId: string,
    popular: bool)

  const MaxPerPage: int := 50

  function Min(a: int, b: int): int {
    if a <= b then a else b
  }

  /** The argument reading at the top of list_posts; None where `int()` raises. */
  function ReadListArgs(args: Args): (r: Option<ListQuery>)
    ensures r.None? <==> ("page" in args && PyInt(args["page"]).None?) || ("per_page" in args && PyInt(args["per_page"]).None?)
    ensures r.Some? ==> r.value.perPage <= MaxPerPage
    ensures r.Some? && "per_page" in args ==> r.value.perPage == Min(PyInt(args["per_page"]).value, MaxPerPage)
    ensures r.Some? && "per_page" !in args ==> r.value.perPage == 10
    ensures r.Some? ==> r.value.q == Trim(Python, Arg(args, "q", ""))
    ensures r.Some? ==> (r.value.popular <==> Arg(args, "sort", "latest") == "popular")
  {
    var page := if "page" in args then PyInt(args["page"]) else Some(1);
    var perPage := if "per_page" in args then PyInt(args["per_page"]) else Some(10);
    if page.None? || perPage.None? then None
    else
      Some(ListQuery(page.value, Min(perPage.value, MaxPerPage), Trim(Python, Arg(args, "q", "")),
                     Arg(args, "visibility", "PUBLIC"), Arg(args, "status", ""), Arg(args, "category_id", ""),
                     Arg(args, "sort", "latest") == "popular"))
  }

  /** `title LIKE '%q%' OR content_md LIKE '%q%'`; a NULL content_md never matches. */
  predicate Searchable(q: string, p: Post) {
    var pattern := "%" + q + "%";
    LikeMatch(pattern, p.title) || (p.contentMd.Some? && LikeMatch(pattern, p.contentMd.value))
  }

  /** The listing's WHERE clause. */
  predicate Listed(qr: ListQuery, p: Post) {
    p.visibility == qr.visibility
    && (qr.status == "" || p.status == qr.status)
    && (qr.categoryId == "" || p.categoryId == Some(qr.categoryId))
    && (qr.q == "" || Searchable(qr.q, p))
  }

  function ListFilter(qr: ListQuery): Post -> bool {
    (p: Post) => Listed(qr, p)
  }

  /** The ORDER BY: like_count then created_at for "popular", created_at otherwise, both descending. */
  function ListRank(popular: bool): Post -> Rank {
    if popular then (p: Post) => Rank(p.likeCount, p.createdAt) else (p: Post) => Rank(p.createdAt, 0)
  }

  /** A value that passed a handler's checks, or the response it was refused with. */
  datatype Checked<T> = Pass(value: T) | Fail(response: Response)

  const ListFailedMessage: string := "게시글 목록 조회 중 오류가 발생했습니다"

  /** The rows a listing query selects from `rows` (the table in scan order), in result order, before pagination. */
  function Selection(rows: seq<Post>, qr: ListQuery): seq<Post> {
    SortDesc(Filter(rows, ListFilter(qr)), ListRank(qr.popular))
  }

  /**
   * list_posts before pagination: the query read from the arguments and the
   * rows it selects; loading a selected row that cannot be loaded fails.
   */
  function ListPosts(rows: seq<Post>, args: Args): Checked<(ListQuery, seq<Post>)> {
    match ReadListArgs(args)
    case None => Fail(ApiError(ListFailedMessage, 500, JNull))
    case Some(qr) =>
      if forall p :: p in Selection(rows, qr) ==> Loadable(p) then Pass((qr, Selection(rows, qr)))
      else Fail(ApiError(ListFailedMessage, 500, JNull))
  }

  /** `?page=３` (a fullwidth three) asks for page 3, as `int()` reads it. */
  lemma FullwidthPageArgument()
    ensures ReadListArgs(map["page" := "\U{FF13}"]).Some?
    ensures ReadListArgs(map["page" := "\U{FF13}"]).value.page == 3
  {
    PyIntFullwidth();
  }

  /** The selection is exactly the matching rows, ordered by the chosen rank, ties in table order. */
  lemma SelectionMeaning(rows: seq<Post>, qr: ListQuery)
    ensures multiset(Selection(rows, qr)) == multiset(Filter(rows, ListFilter(qr)))
    ensures forall p :: p in Selection(rows, qr) <==> p in rows && Listed(qr, p)
    ensures SortedDesc(Selection(rows, qr), ListRank(qr.popular))
    ensures forall r :: WithRank(Selection(rows, qr), ListRank(qr.popular), r)
                        == WithRank(Filter(rows, ListFilter(qr)), ListRank(qr.popular), r)
  {
    var kept := Filter(rows, ListFilter(qr));
    var key := ListRank(qr.popular);
    SortDescPermutes(kept, key);
    SortDescSorted(kept, key);
    forall r ensures WithRank(Selection(rows, qr), key, r) == WithRank(kept, key, r) {
      SortDescStable(kept, key, r);
    }
    forall p ensures p in Selection(rows, qr) <==> p in rows && Listed(qr, p) {
      FilterMember(rows, ListFilter(qr), p);
      assert p in Selection(rows, qr) <==> p in multiset(Selection(rows, qr));
      assert p in kept <==> p in multiset(kept);
    }
  }

  /**
   * list_posts fails with 500 exactly when `int()` rejects page or per_page or
   * a matching row cannot be loaded, and otherwise serves the selection; over
   * loadable rows only the arguments can make it fail.
   */
  lemma ListPostsMeaning(rows: seq<Post>, args: Args)
    ensures ListPosts(rows, args).Fail? <==>
      || ReadListArgs(args).None?
      || exists p :: p in rows && Listed(ReadListArgs(args).value, p) && !Loadable(p)
    ensures (forall p :: p in rows ==> Loadable(p)) ==> (ListPosts(rows, args).Fail? <==> ReadListArgs(args).None?)
    ensures ListPosts(rows, args).Fail? ==> ListPosts(rows, args).response.status == 500
    ensures ListPosts(rows, args).Pass? ==>
              ListPosts(rows, args).value == (ReadListArgs(args).value, Selection(rows, ReadListArgs(args).value))
  {
    if ReadListArgs(args).Some? {
      SelectionMeaning(rows, ReadListArgs(args).value);
    }
  }

  /** With no arguments the listing shows every PUBLIC post whatever its status, newest first. */
  lemma DefaultListing(p: Post)
    ensures ReadListArgs(map[]) == Some(ListQuery(1, 10, "", "PUBLIC", "", "", false))
    ensures Listed(ListQuery(1, 10, "", "PUBLIC", "", "", false), p) <==> p.visibility == "PUBLIC"
  {
    assert Trim(Python, "") == "";
  }

  // ---------------------------------------------------------------------------
  // Request values
  // ---------------------------------------------------------------------------

  /** How SQLite stores a JSON value bound to a text column. */
  datatype Bound = Null | Text(s: string) | Unbindable

  /** Numbers and booleans are stored as their decimal text; lists and objects cannot be bound. */
  function BindText(v: Json): Bound {
    match v
    case JNull => Null
    case JStr(s) => Text(s)
    case JNum(n) => Text(IntToString(n))
    case JBool(b) => Text(if b then "1" else "0")
    case _ => Unbindable
  }

  /** Python truthiness of `data.get(k)`. */
  predicate PyTruthyOpt(v: Option<Json>) {
    v.Some? && PyTruthy(v.value)
  }

  /** `(v or '').strip()`; None where `.strip()` meets a value that is not a string. */
  function StripOrEmpty(v: Option<Json>): Option<string> {
    if !PyTruthyOpt(v) then Some("")
    else if v.value.JStr? then Some(Trim(Python, v.value.s))
    else None
  }

  /** `data.get(k, '').strip()`; None where the value is present and not a string. */
  function StripDefault(v: Option<Json>): Option<string> {
    if v.None? then Some("")
    else if v.value.JStr? then Some(Trim(Python, v.value.s))
    else None
  }

  /**
   * A value written to an Enum column: any string is written as it is, since
   * the Enum type does not validate strings it binds; anything else fails.
   */
  function EnumText(v: Json): Option<string> {
    if v.JStr? then Some(v.s) else None
  }

  /** The members of the visibility and status Enum types of the posts table. */
  const VisibilityValues: set<string> := {"PUBLIC", "PRIVATE", "UNLISTED"}
  const StatusValues: set<string> := {"PUBLISHED", "DRAFT", "DELETED"}

  /**
   * A row SQLAlchemy can load.  An Enum column holding a string outside its
   * members makes every load of the row raise LookupError, which the handlers
   * answer with 500.
   */
  predicate Loadable(p: Post) {
    p.visibility in VisibilityValues && p.status in StatusValues
  }

  /** What `Post.query.get(post_id)` gives a handler. */
  datatype PostLookup = Missing | Unloadable | Loaded

  function LookUp(posts: map<string, Post>, postId: string): (r: PostLookup)
    ensures r.Missing? <==> postId !in posts
    ensures r.Loaded? <==> postId in posts && Loadable(posts[postId])
  {
    if postId !in posts then Missing
    else if !Loadable(posts[postId]) then Unloadable
    else Loaded
  }

  function NoneIfEmpty(s: string): Option<string> {
    if s == "" then None else Some(s)
  }

  /** The updated_at column: set to `now` by any UPDATE that changes the row. */
  function Touched(before: Post, after: Post, now: int): Post {
    if after == before then before else after.(updatedAt := now)
  }

  // ---------------------------------------------------------------------------
  // update_post
  // ---------------------------------------------------------------------------

  const UpdateFailedMessage: string := "게시글 수정 중 오류가 발생했습니다"
  const UpdateRequiredMessage: string := "제목과 작성자 ID는 필수입니다"
  const UpdatedMessage: string := "게시글이 성공적으로 수정되었습니다"

  function UpdateFailed(): Response {
    ApiError(UpdateFailedMessage, 500, JNull)
  }

  /** The six columns an update may write. */
  datatype Columns = Columns(
    title: string,
    contentMd: Option<string>,
    contentS3url: Option<string>,
    authorId: Option<string>,
    visibility: string,
    status: string)

  function ColumnsOf(p: Post): Columns {
    Columns(p.title, p.contentMd, p.contentS3url, p.authorId, p.visibility, p.status)
  }

  /** The row with the six columns written; every other column keeps its value. */
  function WithColumns(p: Post, c: Columns): (q: Post)
    ensures ColumnsOf(q) == c
    ensures q.id == p.id && q.author == p.author && q.category == p.category && q.categoryId == p.categoryId
    ensures q.content == p.content && q.viewCount == p.viewCount && q.likeCount == p.likeCount
    ensures q.commentCount == p.commentCount && q.createdAt == p.createdAt && q.updatedAt == p.updatedAt
    ensures c == ColumnsOf(p) ==> q == p
  {
    p.(title := c.title, contentMd := c.contentMd, contentS3url := c.contentS3url,
       authorId := c.authorId, visibility := c.visibility, status := c.status)
  }

  /** The PUT branch's columns: every one replaced, missing ones by their defaults. */
  function PutColumns(ms: seq<Member>): Checked<Columns> {
    var title := StripOrEmpty(Lookup(ms, "title"));
    var md := StripOrEmpty(Lookup(ms, "content_md"));
    var s3 := StripDefault(Lookup(ms, "content_s3url"));
    var authorId := Lookup(ms, "author_id");
    if title.None? || md.None? || s3.None? then Fail(UpdateFailed())
    else if title.value == "" || !PyTruthyOpt(authorId) then Fail(ApiError(UpdateRequiredMessage, 400, JNull))
    else
      var aid := BindText(authorId.value);
      var vis := EnumText(Lookup(ms, "visibility").GetOr(JStr("PUBLIC")));
      var st := EnumText(Lookup(ms, "status").GetOr(JStr("DRAFT")));
      if !aid.Text? || vis.None? || st.None? then Fail(UpdateFailed())
      else Pass(Columns(title.value, NoneIfEmpty(md.value), NoneIfEmpty(s3.value), Some(aid.s), vis.value, st.value))
  }

  function PutUpdate(p: Post, data: Json): Checked<Post> {
    if !data.JObj? then Fail(UpdateFailed())
    else
      match PutColumns(data.members)
      case Fail(r) => Fail(r)
      case Pass(c) => Pass(WithColumns(p, c))
  }

  /** PUT is refused with 400 when the stripped title is empty or the author id is falsy. */
  lemma PutRequiresTitleAndAuthor(ms: seq<Member>)
    requires StripOrEmpty(Lookup(ms, "title")).Some? && StripOrEmpty(Lookup(ms, "content_md")).Some?
    requires StripDefault(Lookup(ms, "content_s3url")).Some?
    ensures (PutColumns(ms).Fail? && PutColumns(ms).response.status == 400)
            <==> StripOrEmpty(Lookup(ms, "title")) == Some("") || !PyTruthyOpt(Lookup(ms, "author_id"))
    ensures PutColumns(ms).Fail? && PutColumns(ms).response.status == 400 ==>
            PutColumns(ms).response == ApiError(UpdateRequiredMessage, 400, JNull)
  {
    assert UpdateFailed().status == 500;
  }

  /** What PUT accepts: a non-blank stripped title, an author id, and no empty text stored. */
  lemma PutAccepted(ms: seq<Member>)
    requires PutColumns(ms).Pass?
    ensures var c := PutColumns(ms).value;
      && c.title != "" && Some(c.title) == StripOrEmpty(Lookup(ms, "title"))
      && c.authorId.Some? && PyTruthyOpt(Lookup(ms, "author_id"))
      && c.contentMd != Some("") && c.contentS3url != Some("")
      && (!HasKey(ms, "visibility") ==> c.visibility == "PUBLIC")
      && (!HasKey(ms, "status") ==> c.status == "DRAFT")
  {
  }

  /** One PATCH column: the key's value turned into the column value, None where the request fails. */
  function PatchText(ms: seq<Member>, k: string, current: string): Option<string> {
    match Lookup(ms, k)
    case None => Some(current)
    case Some(v) => StripOrEmpty(Some(v))
  }

  function PatchNullableText(ms: seq<Member>, k: string, current: Option<string>): Option<Option<string>> {
    match Lookup(ms, k)
    case None => Some(current)
    case Some(v) =>
      match StripOrEmpty(Some(v))
      case Some(s) => Some(Some(s))
      case None => None
  }

  function PatchRaw(ms: seq<Member>, k: string, current: Option<string>): Option<Option<string>> {
    match Lookup(ms, k)
    case None => Some(current)
    case Some(v) =>
      match BindText(v)
      case Null => Some(None)
      case Text(s) => Some(Some(s))
      case Unbindable => None
  }

  function PatchEnum(ms: seq<Member>, k: string, current: string): Option<string> {
    match Lookup(ms, k)
    case None => Some(current)
    case Some(v) => EnumText(v)
  }

  /** The PATCH branch's columns on an object body: only the keys present are written. */
  function PatchColumns(c: Columns, ms: seq<Member>): Checked<Columns> {
    var title := PatchText(ms, "title", c.title);
    var md := PatchNullableText(ms, "content_md", c.contentMd);
    var s3 := PatchNullableText(ms, "content_s3url", c.contentS3url);
    var aid := PatchRaw(ms, "author_id", c.authorId);
    var vis := PatchEnum(ms, "visibility", c.visibility);
    var st := PatchEnum(ms, "status", c.status);
    if title.None? || md.None? || s3.None? || aid.None? || vis.None? || st.None? then Fail(UpdateFailed())
    else Pass(Columns(title.value, md.value, s3.value, aid.value, vis.value, st.value))
  }

  const PatchKeys: seq<string> := ["title", "content_md", "content_s3url", "author_id", "visibility", "status"]

  /** The PATCH branch; a body that is not an object fails once a key test meets it. */
  function PatchUpdate(p: Post, data: Json): Checked<Post> {
    match data
    case JObj(ms) =>
      (match PatchColumns(ColumnsOf(p), ms)
       case Fail(r) => Fail(r)
       case Pass(c) => Pass(WithColumns(p, c)))
    case JArr(items) =>
      if exists k :: k in PatchKeys && JStr(k) in items then Fail(UpdateFailed()) else Pass(p)
    case JStr(text) =>
      if exists k :: k in PatchKeys && Contains(text, k) then Fail(UpdateFailed()) else Pass(p)
    case _ => Fail(UpdateFailed())
  }

  /** PATCH keeps every column whose key is absent, and an empty body changes nothing. */
  lemma PatchKeepsAbsent(c: Columns, ms: seq<Member>)
    requires PatchColumns(c, ms).Pass?
    ensures var d := PatchColumns(c, ms).value;
      && (!HasKey(ms, "title") ==> d.title == c.title)
      && (!HasKey(ms, "content_md") ==> d.contentMd == c.contentMd)
      && (!HasKey(ms, "content_s3url") ==> d.contentS3url == c.contentS3url)
      && (!HasKey(ms, "author_id") ==> d.authorId == c.authorId)
      && (!HasKey(ms, "visibility") ==> d.visibility == c.visibility)
      && (!HasKey(ms, "status") ==> d.status == c.status)
  {
  }

  /** A present author_id of null clears the column; PATCH keeps an empty stripped text as "". */
  lemma PatchWritesPresent(c: Columns, ms: seq<Member>)
    requires PatchColumns(c, ms).Pass?
    ensures var d := PatchColumns(c, ms).value;
      && (Lookup(ms, "author_id") == Some(JNull) ==> d.authorId == None)
      && (HasKey(ms, "content_md") ==> d.contentMd == StripOrEmpty(Lookup(ms, "content_md")))
      && (HasKey(ms, "title") ==> Some(d.title) == StripOrEmpty(Lookup(ms, "title")))
  {
  }

  /** update_post's outcome for an existing post: a body that is not JSON fails before either branch. */
  function UpdateOutcome(isPut: bool, p: Post, body: Option<Json>): Checked<Post> {
    match body
    case None => Fail(UpdateFailed())
    case Some(data) => if isPut then PutUpdate(p, data) else PatchUpdate(p, data)
  }

  /**
   * PATCH {"status": "FOO"} is accepted and stores "FOO": the row written can
   * no longer be loaded, so later requests for it fail.
   */
  lemma PatchUnknownStatus(p: Post)
    ensures UpdateOutcome(false, p, Some(JObj([Member("status", JStr("FOO"))]))).Pass?
    ensures UpdateOutcome(false, p, Some(JObj([Member("status", JStr("FOO"))]))).value.status == "FOO"
    ensures !Loadable(UpdateOutcome(false, p, Some(JObj([Member("status", JStr("FOO"))]))).value)
  {
  }

  // ---------------------------------------------------------------------------
  // create_post
  // ---------------------------------------------------------------------------

  const RequiredFields: seq<string> := ["title", "content", "category"]
  const NoDataMessage: string := "요청 데이터가 없습니다."
  const CreatedMessage: string := "게시글이 성공적으로 작성되었습니다."
  const CreateFailedMessage: string := "게시글 작성 중 오류가 발생했습니다."

  /** The first of `fields` whose value in the body is falsy. */
  function FirstMissing(ms: seq<Member>, fields: seq<string>): Option<string> {
    if fields == [] then None
    else if !PyTruthyOpt(Lookup(ms, fields[0])) then Some(fields[0])
    else FirstMissing(ms, fields[1..])
  }

  /** None exactly when every field is truthy; otherwise the first falsy field, after only truthy ones. */
  lemma {:induction false} FirstMissingMeaning(ms: seq<Member>, fields: seq<string>)
    ensures var r := FirstMissing(ms, fields);
      && (r.None? <==> forall i :: 0 <= i < |fields| ==> PyTruthyOpt(Lookup(ms, fields[i])))
      && (r.Some? ==> exists i :: 0 <= i < |fields| && fields[i] == r.value && !PyTruthyOpt(Lookup(ms, fields[i]))
                                  && forall j :: 0 <= j < i ==> PyTruthyOpt(Lookup(ms, fields[j])))
  {
    if fields != [] && PyTruthyOpt(Lookup(ms, fields[0])) {
      FirstMissingMeaning(ms, fields[1..]);
      assert forall i :: 0 < i < |fields| ==> fields[i] == fields[1..][i - 1];
      var r := FirstMissing(ms, fields);
      if r.Some? {
        var i :| 0 <= i < |fields[1..]| && fields[1..][i] == r.value && !PyTruthyOpt(Lookup(ms, fields[1..][i]))
                 && forall j :: 0 <= j < i ==> PyTruthyOpt(Lookup(ms, fields[1..][j]));
        assert fields[i + 1] == r.value;
      }
    }
  }

  /** The three required fields are all present exactly when each of title, content and category is truthy. */
  lemma RequiredPresentIff(ms: seq<Member>)
    ensures FirstMissing(ms, RequiredFields).None? <==>
      PyTruthyOpt(Lookup(ms, "title")) && PyTruthyOpt(Lookup(ms, "content")) && PyTruthyOpt(Lookup(ms, "category"))
  {
    var f := RequiredFields;
    assert f[1..] == ["content", "category"] && f[1..][1..] == ["category"] && f[1..][1..][1..] == [];
    assert FirstMissing(ms, f) == if PyTruthyOpt(Lookup(ms, "title")) then FirstMissing(ms, f[1..]) else Some("title");
    assert FirstMissing(ms, f[1..]) == if PyTruthyOpt(Lookup(ms, "content")) then FirstMissing(ms, f[1..][1..]) else Some("content");
    assert FirstMissing(ms, f[1..][1..]) == if PyTruthyOpt(Lookup(ms, "category")) then None else Some("category");
  }

  /** The stored text of a present value, None where the insert fails. */
  function StoredText(v: Json): (r: Option<string>)
    ensures v.JStr? ==> r == Some(v.s)
  {
    match BindText(v)
    case Text(s) => Some(s)
    case _ => None
  }

  /** The row create_post inserts; the author defaults to 'Anonymous'; None where the insert fails. */
  function CreateRow(ms: seq<Member>, id: string, now: int): Option<Post>
    requires FirstMissing(ms, RequiredFields).None?
  {
    RequiredPresentIff(ms);
    var title := StoredText(Lookup(ms, "title").value);
    var content := StoredText(Lookup(ms, "content").value);
    var category := StoredText(Lookup(ms, "category").value);
    var author := match Lookup(ms, "author") case None => Some("Anonymous") case Some(v) => StoredText(v);
    if title.None? || content.None? || category.None? || author.None? then None
    else Some(NewPost(id, title.value, content.value, author.value, category, now))
  }

  /** Without an author the row is written by 'Anonymous', with every default column. */
  lemma CreateRowDefaults(ms: seq<Member>, id: string, now: int, title: string, content: string, category: string)
    requires Lookup(ms, "title") == Some(JStr(title)) && title != ""
    requires Lookup(ms, "content") == Some(JStr(content)) && content != ""
    requires Lookup(ms, "category") == Some(JStr(category)) && category != ""
    requires !HasKey(ms, "author")
    ensures FirstMissing(ms, RequiredFields).None?
    ensures CreateRow(ms, id, now) == Some(NewPost(id, title, content, "Anonymous", Some(category), now))
    ensures CreateRow(ms, id, now).value.status == "PUBLISHED" && CreateRow(ms, id, now).value.likeCount == 0
  {
    assert |"author"| == 6 && |"title"| == 5 && |"content"| == 7 && |"category"| == 8;
    RequiredPresentIff(ms);
    assert Lookup(ms, "author").None?;
  }

  /** The 201 body of create_post. */
  function CreatedBody(p: Post): Json {
    JObj([
      Member("success", JBool(true)),
      Member("message", JStr(CreatedMessage)),
      Member("data", JObj([
        Member("id", JStr(p.id)),
        Member("title", JStr(p.title)),
        Member("content", JStr(p.content)),
        Member("author", JStr(p.author)),
        Member("category", JStr(p.category)),
        Member("created_at", JNum(p.createdAt))]))])
  }

  // ---------------------------------------------------------------------------
  // get_post, delete_post
  // ---------------------------------------------------------------------------

  const NotFoundMessage: string := "게시글을 찾을 수 없습니다"
  const DeletedMessage: string := "게시글이 성공적으로 삭제되었습니다"
  const DeleteFailedMessage: string := "게시글 삭제 중 오류가 발생했습니다"
  const GetFailedMessage: string := "게시글 조회 중 오류가 발생했습니다"

  function NotFound(): Response {
    ApiError(NotFoundMessage, 404, JNull)
  }

  /** The post record get_post serves; instants are written as integers. */
  function PostDict(p: Post): Json {
    JObj([
      Member("id", JStr(p.id)),
      Member("title", JStr(p.title)),
      Member("content", JStr(p.content)),
      Member("content_md", NullableStr(p.contentMd)),
      Member("content_s3url", NullableStr(p.contentS3url)),
      Member("author", JStr(p.author)),
      Member("author_id", NullableStr(p.authorId)),
      Member("category", JStr(p.category)),
      Member("visibility", JStr(p.visibility)),
      Member("status", JStr(p.status)),
      Member("view_count", JNum(p.viewCount)),
      Member("like_count", JNum(p.likeCount)),
      Member("comment_count", JNum(p.commentCount)),
      Member("created_at", JNum(p.createdAt)),
      Member("updated_at", JNum(p.updatedAt))])
  }

  /** `request.remote_addr or environ.get('HTTP_X_FORWARDED_FOR', 'unknown')`. */
  function ClientIp(remoteAddr: Option<string>, forwardedFor: Option<string>): string {
    if remoteAddr.Some? && remoteAddr.value != "" then remoteAddr.value else forwardedFor.GetOr("unknown")
  }

  /** The `_view_cache` key `f"{post_id}_{client_ip}"`. */
  function ViewKey(postId: string, clientIp: string): string {
    postId + "_" + clientIp
  }

  /** Two minutes, in microseconds. */
  const ViewWindow: int := 120_000_000

  /** The key was seen less than two minutes before `now`. */
  predicate RecentlyViewed(cache: map<string, int>, key: string, now: int) {
    key in cache && now - cache[key] < ViewWindow
  }

  lemma {:induction false} BeforeFirstOf(p: string, rest: string, c: char)
    requires c !in p
    ensures BeforeFirst(p + [c] + rest, c) == p
  {
    if p != [] {
      assert (p + [c] + rest)[1..] == p[1..] + [c] + rest;
      BeforeFirstOf(p[1..], rest, c);
      assert [p[0]] + p[1..] == p;
    }
  }

  /** For ids without '_' the cache key determines the post and the client. */
  lemma ViewKeyInjective(p1: string, ip1: string, p2: string, ip2: string)
    requires '_' !in p1 && '_' !in p2
    requires ViewKey(p1, ip1) == ViewKey(p2, ip2)
    ensures p1 == p2 && ip1 == ip2
  {
    BeforeFirstOf(p1, ip1, '_');
    BeforeFirstOf(p2, ip2, '_');
    assert ViewKey(p1, ip1) == p1 + ['_'] + ip1 && ViewKey(p2, ip2) == p2 + ['_'] + ip2;
    assert ip1 == ViewKey(p1, ip1)[|p1| + 1..];
    assert ip2 == ViewKey(p2, ip2)[|p2| + 1..];
  }

  /** Ids from generate_id have no '_', so their view keys never collide. */
  lemma GeneratedIdViewKeys(r1: seq<nat>, r2: seq<nat>, ip1: string, ip2: string)
    requires Nibbles(r1) && Nibbles(r2)
    requires ViewKey(GenerateId(r1), ip1) == ViewKey(GenerateId(r2), ip2)
    ensures GenerateId(r1) == GenerateId(r2) && ip1 == ip2
  {
    GenerateIdShape(r1);
    GenerateIdShape(r2);
    assert '_' !in GenerateId(r1) && '_' !in GenerateId(r2);
    ViewKeyInjective(GenerateId(r1), ip1, GenerateId(r2), ip2);
  }

  /** Other ids can collide: two different posts and clients share one cache entry. */
  lemma ViewKeyCollision()
    ensures ViewKey("a_b", "c") == ViewKey("a", "b_c")
  {
  }

  // ---------------------------------------------------------------------------
  // Likes
  // ---------------------------------------------------------------------------

  /** The two handlers registered for POST /posts/<id>/like; Flask serves the first. */
  datatype LikeRoute = LikePostRoute | ToggleLikeRoute

  const LikeUserRequired: string := "사용자 ID는 필수입니다"
  const LikeFailedMessage: string := "좋아요 처리 중 오류가 발생했습니다"

  /**
   * The checks before a like is toggled, in each handler's order: like_post looks
   * the post up first, toggle_like checks the user id first.  A post that cannot
   * be loaded fails where it is looked up.  The result is the user id as stored.
   */
  function LikeUser(route: LikeRoute, found: PostLookup, body: Option<Json>): (r: Checked<string>)
    ensures r.Pass? ==> found.Loaded? && body.Some? && body.value.JObj?
    ensures r.Pass? ==> PyTruthyOpt(Lookup(body.value.members, "user_id"))
    ensures r.Pass? ==> Some(r.value) == StoredText(Lookup(body.value.members, "user_id").value)
    ensures body.Some? && body.value.JObj? && found.Loaded? && !PyTruthyOpt(Lookup(body.value.members, "user_id"))
            ==> r.Fail? && r.response.status == 400
    ensures found.Unloadable? ==> r.Fail? && r.response.status in {400, 500}
  {
    var data := body.GetOr(JNull);
    var userId := if data.JObj? then Lookup(data.members, "user_id") else None;
    match route
    case LikePostRoute =>
      if found.Missing? then Fail(NotFound())
      else if found.Unloadable? then Fail(ApiError(LikeFailedMessage, 500, JNull))
      else if !data.JObj? then Fail(ApiError(LikeFailedMessage, 500, JNull))
      else if !PyTruthyOpt(userId) then Fail(ApiError(LikeUserRequired, 400, JNull))
      else if StoredText(userId.value).None? then Fail(ApiError(LikeFailedMessage, 500, JNull))
      else Pass(StoredText(userId.value).value)
    case ToggleLikeRoute =>
      if !data.JObj? then Fail(Response(500, FailureBody(LikeFailedMessage + ".")))
      else if !PyTruthyOpt(userId) then Fail(Response(400, FailureBody("사용자 ID가 필요합니다.")))
      else if found.Missing? then Fail(Response(404, FailureBody(NotFoundMessage + ".")))
      else if found.Unloadable? then Fail(Response(500, FailureBody(LikeFailedMessage + ".")))
      else if StoredText(userId.value).None? then Fail(Response(500, FailureBody(LikeFailedMessage + ".")))
      else Pass(StoredText(userId.value).value)
  }

  /** With the post present both handlers accept the same requests for the same user and refuse the rest with the same status. */
  lemma LikeRoutesAgree(found: PostLookup, body: Option<Json>)
    ensures var a, b := LikeUser(LikePostRoute, found, body), LikeUser(ToggleLikeRoute, found, body);
      found.Loaded? ==>
        && (a.Pass? <==> b.Pass?) && (a.Pass? ==> a.value == b.value)
        && (a.Fail? ==> a.response.status == b.response.status)
  {
  }

  /**
   * Without a user id, like_post answers 404 for a missing post and 500 for one
   * it cannot load, where toggle_like answers 400 for both.
   */
  lemma LikeRoutesDisagree()
    ensures LikeUser(LikePostRoute, Missing, Some(JObj([]))).response.status == 404
    ensures LikeUser(ToggleLikeRoute, Missing, Some(JObj([]))).response.status == 400
    ensures LikeUser(LikePostRoute, Unloadable, Some(JObj([]))).response.status == 500
    ensures LikeUser(ToggleLikeRoute, Unloadable, Some(JObj([]))).response.status == 400
  {
  }

  /** The users who like post `postId`. */
  function Likers(likes: set<(string, string)>, postId: string): set<string> {
    set l | l in likes && l.0 == postId :: l.1
  }

  lemma LikersAdd(likes: set<(string, string)>, pair: (string, string), id: string)
    requires pair !in likes
    ensures Likers(likes + {pair}, id) == if pair.0 == id then Likers(likes, id) + {pair.1} else Likers(likes, id)
    ensures pair.0 == id ==> pair.1 !in Likers(likes, id)
  {
    if pair.0 == id {
      assert pair.1 in Likers(likes + {pair}, id);
    }
  }

  lemma LikersRemove(likes: set<(string, string)>, pair: (string, string), id: string)
    requires pair in likes
    ensures Likers(likes - {pair}, id) == if pair.0 == id then Likers(likes, id) - {pair.1} else Likers(likes, id)
    ensures pair.0 == id ==> pair.1 in Likers(likes, id)
  {
    if pair.0 == id {
      assert pair.1 in Likers(likes, id);
      forall u | u in Likers(likes, id) && u != pair.1 ensures u in Likers(likes - {pair}, id) {
        var l :| l in likes && l.0 == id && l.1 == u;
        assert l != pair;
      }
    } else {
      forall u | u in Likers(likes, id) ensures u in Likers(likes - {pair}, id) {
        var l :| l in likes && l.0 == id && l.1 == u;
        assert l != pair;
      }
    }
  }

  /** `max(0, c - 1)` after a removal, `c + 1` after an addition. */
  function LikeCountAfter(c: int, wasLiked: bool): int {
    if wasLiked then (if c - 1 < 0 then 0 else c - 1) else c + 1
  }

  /** The success response of the handler that served the like. */
  function LikeResponse(route: LikeRoute, action: string, likeCount: int): Response {
    match route
    case LikePostRoute =>
      ApiResponse(JObj([
          Member("like_count", JNum(likeCount)),
          Member("is_liked", JBool(action == "added")),
          Member("action", JStr(action)),
          Member("message", JStr("좋아요가 " + action + "되었습니다"))]),
        "Success", 200, JNull)
    case ToggleLikeRoute =>
      Response(200, JObj([
        Member("success", JBool(true)),
        Member("message", JStr("좋아요가 " + action + "되었습니다.")),
        Member("data", JObj([
          Member("action", JStr(action)),
          Member("like_count", JNum(likeCount)),
          Member("is_liked", JBool(action == "added"))]))]))
  }

  /** The likes after a toggle of `pair`: removed when present, added otherwise. */
  function Toggled(likes: set<(string, string)>, pair: (string, string)): (r: set<(string, string)>)
    ensures pair in r <==> pair !in likes
    ensures forall l :: l != pair ==> (l in r <==> l in likes)
  {
    if pair in likes then likes - {pair} else likes + {pair}
  }

  /** Toggling the same like twice restores the likes. */
  lemma ToggledTwice(likes: set<(string, string)>, pair: (string, string))
    ensures Toggled(Toggled(likes, pair), pair) == likes
  {
  }

  // ---------------------------------------------------------------------------
  // create_post and update_post outcomes
  // ---------------------------------------------------------------------------

  /** create_post's outcome for a new id that is taken or not: the row to insert, or the response. */
  function CreateOutcome(body: Option<Json>, id: string, now: int, taken: bool): Checked<Post> {
    match body
    case None => Fail(Response(500, ErrorBody(CreateFailedMessage)))
    case Some(data) =>
      if !PyTruthy(data) then Fail(Response(400, ErrorBody(NoDataMessage)))
      else if !data.JObj? then Fail(Response(500, ErrorBody(CreateFailedMessage)))
      else
        match FirstMissing(data.members, RequiredFields)
        case Some(field) => Fail(Response(400, ErrorBody(field + " 필드가 필요합니다.")))
        case None =>
          match CreateRow(data.members, id, now)
          case None => Fail(Response(500, ErrorBody(CreateFailedMessage)))
          case Some(p) => if taken then Fail(Response(500, ErrorBody(CreateFailedMessage))) else Pass(p)
  }

  /** create_post answers 400 unless title, content and category are all truthy, and inserts a default row. */
  lemma CreateOutcomeMeaning(body: Option<Json>, id: string, now: int, taken: bool)
    ensures var o := CreateOutcome(body, id, now, taken);
      && (body.Some? && !PyTruthy(body.value) ==> o == Fail(Response(400, ErrorBody(NoDataMessage))))
      && (body.Some? && body.value.JObj? && body.value.members != []
          && (exists i :: 0 <= i < |RequiredFields| && !PyTruthyOpt(Lookup(body.value.members, RequiredFields[i])))
          ==> o.Fail? && o.response.status == 400)
      && (o.Pass? ==>
            && body.Some? && body.value.JObj? && !taken
            && (forall i :: 0 <= i < |RequiredFields| ==> PyTruthyOpt(Lookup(body.value.members, RequiredFields[i])))
            && o.value.id == id && o.value.createdAt == now
            && o.value.status == "PUBLISHED" && o.value.visibility == "PUBLIC" && o.value.likeCount == 0
            && (!HasKey(body.value.members, "author") ==> o.value.author == "Anonymous"))
  {
    if body.Some? && body.value.JObj? {
      var ms := body.value.members;
      FirstMissingMeaning(ms, RequiredFields);
      if FirstMissing(ms, RequiredFields).None? && CreateRow(ms, id, now).Some? && !HasKey(ms, "author") {
        assert Lookup(ms, "author") == None;
      }
    }
  }

  /** update_post writes only the six columns; every other column keeps its value. */
  lemma UpdateWritesColumns(isPut: bool, p: Post, body: Option<Json>)
    ensures UpdateOutcome(isPut, p, body).Pass? ==>
      UpdateOutcome(isPut, p, body).value == WithColumns(p, ColumnsOf(UpdateOutcome(isPut, p, body).value))
  {
    if UpdateOutcome(isPut, p, body).Pass? {
      var q := UpdateOutcome(isPut, p, body).value;
      if q == p {
        assert WithColumns(p, ColumnsOf(p)) == p;
      }
    }
  }

  /** A refused update leaves the row as it was; a 400 only comes from PUT's title and author check. */
  lemma UpdateRefusals(isPut: bool, p: Post, body: Option<Json>)
    ensures UpdateOutcome(isPut, p, body).Fail? ==> UpdateOutcome(isPut, p, body).response.status in {400, 500}
    ensures UpdateOutcome(isPut, p, body).Fail? && UpdateOutcome(isPut, p, body).response.status == 400 ==>
              isPut && UpdateOutcome(isPut, p, body).response == ApiError(UpdateRequiredMessage, 400, JNull)
  {
    assert UpdateFailed().status == 500;
    if body.Some? && body.value.JObj? && isPut {
      var ms := body.value.members;
      if StripOrEmpty(Lookup(ms, "title")).Some? && StripOrEmpty(Lookup(ms, "content_md")).Some?
         && StripDefault(Lookup(ms, "content_s3url")).Some? {
        PutRequiresTitleAndAuthor(ms);
      }
    }
  }

  /** The table rows for `ids`, in that order. */
  function RowsOf(m: map<string, Post>, ids: seq<string>): (r: seq<Post>)
    requires forall k :: 0 <= k < |ids| ==> ids[k] in m
    ensures |r| == |ids| && forall k :: 0 <= k < |ids| ==> r[k] == m[ids[k]]
  {
    if ids == [] then [] else [m[ids[0]]] + RowsOf(m, ids[1..])
  }

  // ---------------------------------------------------------------------------
  // The store the handlers update
  // ---------------------------------------------------------------------------

  /** Each stored id is listed once and keys its row; every like names a stored post; like_count counts its likes. */
  ghost predicate Consistent(posts: map<string, Post>, order: seq<string>, likes: set<(string, string)>) {
    && (forall i, j :: 0 <= i < j < |order| ==> order[i] != order[j])
    && (forall id :: id in posts <==> id in order)
    && (forall l :: l in likes ==> l.0 in posts)
    && (forall id :: id in posts ==> posts[id].id == id && posts[id].likeCount == |Likers(likes, id)|)
  }

  /** Rewriting a row without changing its id or like count keeps the store consistent. */
  lemma RowUpdateConsistent(posts: map<string, Post>, order: seq<string>, likes: set<(string, string)>, q: Post)
    requires Consistent(posts, order, likes)
    requires q.id in posts && q.likeCount == posts[q.id].likeCount
    ensures Consistent(posts[q.id := q], order, likes)
  {
  }

  /** Inserting a row under a fresh id, with no likes, at the end of the scan order keeps the store consistent. */
  lemma InsertConsistent(posts: map<string, Post>, order: seq<string>, likes: set<(string, string)>, q: Post)
    requires Consistent(posts, order, likes)
    requires q.id !in posts && q.likeCount == 0
    ensures Consistent(posts[q.id := q], order + [q.id], likes)
  {
    assert forall l :: l in likes ==> l.0 != q.id;
    assert Likers(likes, q.id) == {};
    assert forall i :: 0 <= i < |order| ==> order[i] != q.id;
  }

  /** Toggling a like on a stored post and moving its count by one, as LikeCountAfter does, keeps the store consistent. */
  lemma ToggleConsistent(posts: map<string, Post>, order: seq<string>, likes: set<(string, string)>, pair: (string, string), now: int)
    requires Consistent(posts, order, likes)
    requires pair.0 in posts
    ensures var p := posts[pair.0];
      && LikeCountAfter(p.likeCount, pair in likes) == (if pair in likes then p.likeCount - 1 else p.likeCount + 1)
      && Consistent(posts[pair.0 := Touched(p, p.(likeCount := LikeCountAfter(p.likeCount, pair in likes)), now)],
                    order, Toggled(likes, pair))
  {
    var id := pair.0;
    var p := posts[id];
    var after := Toggled(likes, pair);
    var q := Touched(p, p.(likeCount := LikeCountAfter(p.likeCount, pair in likes)), now);
    if pair in likes {
      LikersRemove(likes, pair, id);
      forall x | x in posts && x != id ensures Likers(after, x) == Likers(likes, x) {
        LikersRemove(likes, pair, x);
      }
    } else {
      LikersAdd(likes, pair, id);
      forall x | x in posts && x != id ensures Likers(after, x) == Likers(likes, x) {
        LikersAdd(likes, pair, x);
      }
    }
    LikesChangeConsistent(posts, order, likes, after, q);
  }

  /** Changing the likes of one stored post and storing its row with the new count keeps the store consistent. */
  lemma LikesChangeConsistent(posts: map<string, Post>, order: seq<string>, likes: set<(string, string)>,
                              after: set<(string, string)>, q: Post)
    requires Consistent(posts, order, likes)
    requires q.id in posts && q.likeCount == |Likers(after, q.id)|
    requires forall l :: l in after ==> l.0 in posts
    requires forall x :: x in posts && x != q.id ==> Likers(after, x) == Likers(likes, x)
    ensures Consistent(posts[q.id := q], order, after)
  {
  }

  /**
   * The posts and likes tables and the process-wide `_view_cache`.  `order` is
   * the posts table's scan order, which list_posts sorts.  `likes` is a set, so
   * there is at most one like per (post id, user id), as the unique constraint on
   * the likes table demands.
   */
  class PostStore {
    var posts: map<string, Post>
    var order: seq<string>
    var likes: set<(string, string)>
    var viewCache: map<string, int>

    /** Each stored id is listed once and keys its row; every like names a stored post; like_count counts its likes. */
    ghost predicate Valid()
      reads this
    {
      Consistent(posts, order, likes)
    }

    constructor ()
      ensures Valid()
      ensures posts == map[] && order == [] && likes == {} && viewCache == map[]
    {
      posts, order, likes, viewCache := map[], [], {}, map[];
    }

    /** The table in scan order, the rows list_posts selects from. */
    function Rows(): (r: seq<Post>)
      reads this
      requires Valid()
      ensures |r| == |order| && forall k :: 0 <= k < |r| ==> r[k] == posts[order[k]]
    {
      RowsOf(posts, order)
    }

    /** `_should_increment_view`: a view is counted unless the same key was seen within the window; a counted view is recorded. */
    method ShouldIncrementView(postId: string, clientIp: string, now: int) returns (should: bool)
      modifies this
      ensures should <==> !RecentlyViewed(old(viewCache), ViewKey(postId, clientIp), now)
      ensures viewCache == if should then old(viewCache)[ViewKey(postId, clientIp) := now] else old(viewCache)
      ensures posts == old(posts) && order == old(order) && likes == old(likes)
    {
      var key := ViewKey(postId, clientIp);
      if key in viewCache && now - viewCache[key] < ViewWindow {
        should := false;
      } else {
        viewCache := viewCache[key := now];
        should := true;
      }
    }

    /** The view counting of get_post for a stored post: one more view when the view counts. */
    method CountView(postId: string, clientIp: string, now: int)
      requires Valid() && postId in posts
      modifies this
      ensures Valid()
      ensures order == old(order) && likes == old(likes)
      ensures var p := old(posts)[postId];
        var counted := !RecentlyViewed(old(viewCache), ViewKey(postId, clientIp), now);
        && posts == old(posts)[postId := if counted then Touched(p, p.(viewCount := p.viewCount + 1), now) else p]
        && viewCache == (if counted then old(viewCache)[ViewKey(postId, clientIp) := now] else old(viewCache))
    {
      ghost var counted := !RecentlyViewed(viewCache, ViewKey(postId, clientIp), now);
      var p := posts[postId];
      var should := ShouldIncrementView(postId, clientIp, now);
      assert should == counted && p == old(posts)[postId];
      var q := if should then Touched(p, p.(viewCount := p.viewCount + 1), now) else p;
      RowUpdateConsistent(posts, order, likes, q);
      posts := posts[postId := q];
    }

    /**
     * get_post: 404 for an unknown id, 500 for a row that cannot be loaded;
     * otherwise the row, its view count raised by one when the view counts.
     */
    method GetPost(postId: string, remoteAddr: Option<string>, forwardedFor: Option<string>, now: int) returns (resp: Response)
      requires Valid()
      modifies this
      ensures Valid()
      ensures order == old(order) && likes == old(likes)
      ensures postId !in old(posts) ==> resp == NotFound() && posts == old(posts) && viewCache == old(viewCache)
      ensures postId in old(posts) && !Loadable(old(posts)[postId]) ==>
        resp == ApiError(GetFailedMessage, 500, JNull) && posts == old(posts) && viewCache == old(viewCache)
      ensures postId in old(posts) && Loadable(old(posts)[postId]) ==>
        var p := old(posts)[postId];
        var key := ViewKey(postId, ClientIp(remoteAddr, forwardedFor));
        var counted := !RecentlyViewed(old(viewCache), key, now);
        && posts == old(posts)[postId := if counted then Touched(p, p.(viewCount := p.viewCount + 1), now) else p]
        && viewCache == (if counted then old(viewCache)[key := now] else old(viewCache))
        && resp == ApiResponse(PostDict(posts[postId]), "Success", 200, JNull)
    {
      if postId !in posts {
        return NotFound();
      }
      if !Loadable(posts[postId]) {
        return ApiError(GetFailedMessage, 500, JNull);
      }
      CountView(postId, ClientIp(remoteAddr, forwardedFor), now);
      resp := ApiResponse(PostDict(posts[postId]), "Success", 200, JNull);
    }

    /** create_post: checks the body field by field, then inserts a row under the id drawn from `random`. */
    method CreatePost(body: Option<Json>, random: seq<nat>, now: int) returns (resp: Response)
      requires Valid() && Nibbles(random)
      modifies this
      ensures Valid()
      ensures likes == old(likes) && viewCache == old(viewCache)
      ensures var outcome := CreateOutcome(body, GenerateId(random), now, GenerateId(random) in old(posts));
        && (outcome.Fail? ==> resp == outcome.response && posts == old(posts) && order == old(order))
        && (outcome.Pass? ==>
              && posts == old(posts)[GenerateId(random) := outcome.value]
              && order == old(order) + [GenerateId(random)]
              && resp == Response(201, CreatedBody(outcome.value)))
    {
      var id := GenerateId(random);
      if body.None? {
        return Response(500, ErrorBody(CreateFailedMessage));
      }
      var data := body.value;
      if !PyTruthy(data) {
        return Response(400, ErrorBody(NoDataMessage));
      }
      if !data.JObj? {
        return Response(500, ErrorBody(CreateFailedMessage));
      }
      var ms := data.members;
      var i := 0;
      while i < |RequiredFields|
        invariant 0 <= i <= |RequiredFields|
        invariant FirstMissing(ms, RequiredFields) == FirstMissing(ms, RequiredFields[i..])
      {
        var field := RequiredFields[i];
        if !PyTruthyOpt(Lookup(ms, field)) {
          return Response(400, ErrorBody(field + " 필드가 필요합니다."));
        }
        assert RequiredFields[i..][1..] == RequiredFields[i + 1..];
        i := i + 1;
      }
      assert RequiredFields[i..] == [];
      var row := CreateRow(ms, id, now);
      if row.None? || id in posts {
        return Response(500, ErrorBody(CreateFailedMessage));
      }
      var p := row.value;
      InsertConsistent(posts, order, likes, p);
      posts := posts[id := p];
      order := order + [id];
      resp := Response(201, CreatedBody(p));
    }

    /**
     * update_post: 404 for an unknown id, 500 for a row that cannot be loaded;
     * otherwise the PUT or PATCH outcome, the row touched when it changes.
     */
    method UpdatePost(postId: string, isPut: bool, body: Option<Json>, now: int) returns (resp: Response)
      requires Valid()
      modifies this
      ensures Valid()
      ensures order == old(order) && likes == old(likes) && viewCache == old(viewCache)
      ensures postId !in old(posts) ==> resp == NotFound() && posts == old(posts)
      ensures postId in old(posts) && !Loadable(old(posts)[postId]) ==> resp == UpdateFailed() && posts == old(posts)
      ensures postId in old(posts) && Loadable(old(posts)[postId]) ==>
        var outcome := UpdateOutcome(isPut, old(posts)[postId], body);
        && (outcome.Fail? ==> resp == outcome.response && posts == old(posts))
        && (outcome.Pass? ==>
              && posts == old(posts)[postId := Touched(old(posts)[postId], outcome.value, now)]
              && resp == ApiResponse(JNull, UpdatedMessage, 200, JNull))
    {
      if postId !in posts {
        return NotFound();
      }
      var p := posts[postId];
      if !Loadable(p) {
        return UpdateFailed();
      }
      var outcome := UpdateOutcome(isPut, p, body);
      if outcome.Fail? {
        return outcome.response;
      }
      UpdateWritesColumns(isPut, p, body);
      RowUpdateConsistent(posts, order, likes, Touched(p, outcome.value, now));
      posts := posts[postId := Touched(p, outcome.value, now)];
      resp := ApiResponse(JNull, UpdatedMessage, 200, JNull);
    }

    /** delete_post: a soft delete; the row stays, with status 'DELETED'.  A row that cannot be loaded gets 500. */
    method DeletePost(postId: string, now: int) returns (resp: Response)
      requires Valid()
      modifies this
      ensures Valid()
      ensures order == old(order) && likes == old(likes) && viewCache == old(viewCache)
      ensures postId !in old(posts) ==> resp == NotFound() && posts == old(posts)
      ensures postId in old(posts) && !Loadable(old(posts)[postId]) ==>
        resp == ApiError(DeleteFailedMessage, 500, JNull) && posts == old(posts)
      ensures postId in old(posts) && Loadable(old(posts)[postId]) ==>
        var p := old(posts)[postId];
        && posts == old(posts)[postId := Touched(p, p.(status := "DELETED"), now)]
        && posts[postId].status == "DELETED"
        && resp == ApiResponse(JNull, DeletedMessage, 200, JNull)
    {
      if postId !in posts {
        return NotFound();
      }
      var p := posts[postId];
      if !Loadable(p) {
        return ApiError(DeleteFailedMessage, 500, JNull);
      }
      RowUpdateConsistent(posts, order, likes, Touched(p, p.(status := "DELETED"), now));
      posts := posts[postId := Touched(p, p.(status := "DELETED"), now)];
      resp := ApiResponse(JNull, DeletedMessage, 200, JNull);
    }

    /** The like handler served by `route`: toggles the user's like and keeps like_count equal to the number of likes. */
    method LikePost(route: LikeRoute, postId: string, body: Option<Json>, now: int) returns (resp: Response)
      requires Valid()
      modifies this
      ensures Valid()
      ensures order == old(order) && viewCache == old(viewCache)
      ensures forall id :: id in posts ==> posts[id].likeCount >= 0
      ensures LikeUser(route, LookUp(old(posts), postId), body).Fail? ==>
                resp == LikeUser(route, LookUp(old(posts), postId), body).response && posts == old(posts) && likes == old(likes)
      ensures LikeUser(route, LookUp(old(posts), postId), body).Pass? ==>
        var pair := (postId, LikeUser(route, LookUp(old(posts), postId), body).value);
        var p := old(posts)[postId];
        var wasLiked := pair in old(likes);
        && likes == Toggled(old(likes), pair)
        && posts == old(posts)[postId := Touched(p, p.(likeCount := LikeCountAfter(p.likeCount, wasLiked)), now)]
        && posts[postId].likeCount == (if wasLiked then p.likeCount - 1 else p.likeCount + 1)
        && resp == LikeResponse(route, if wasLiked then "removed" else "added", posts[postId].likeCount)
    {
      var check := LikeUser(route, LookUp(posts, postId), body);
      if check.Fail? {
        return check.response;
      }
      var pair := (postId, check.value);
      var wasLiked := pair in likes;
      var count := ToggleLike(pair, now);
      resp := LikeResponse(route, if wasLiked then "removed" else "added", count);
    }

    /** The toggle both like handlers run: delete or insert the like and store the row's new like_count. */
    method ToggleLike(pair: (string, string), now: int) returns (count: int)
      requires Valid() && pair.0 in posts
      modifies this
      ensures Valid()
      ensures order == old(order) && viewCache == old(viewCache)
      ensures forall id :: id in posts ==> posts[id].likeCount >= 0
      ensures var p := old(posts)[pair.0];
        var wasLiked := pair in old(likes);
        && likes == Toggled(old(likes), pair)
        && posts == old(posts)[pair.0 := Touched(p, p.(likeCount := LikeCountAfter(p.likeCount, wasLiked)), now)]
        && count == posts[pair.0].likeCount == (if wasLiked then p.likeCount - 1 else p.likeCount + 1)
    {
      var p := posts[pair.0];
      ToggleConsistent(posts, order, likes, pair, now);
      count := LikeCountAfter(p.likeCount, pair in likes);
      likes := Toggled(likes, pair);
      posts := posts[pair.0 := Touched(p, p.(likeCount := count), now)];
    }
  }
}
