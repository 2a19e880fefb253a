/**
 * The post service's tables (Post-master/post/models.py): row identifiers,
 * users and the dictionary they are served as, categories and their seeding,
 * and posts with their column defaults.
 *
 * Instants are integers (microseconds); `datetime.utcnow()` and the random
 * bytes behind `uuid4()` are parameters.
 */
module PostModels {
  import opened Wrappers
  import opened Text
  import opened Json

  // ---------------------------------------------------------------------------
  // generate_id: str(uuid.uuid4()) without its dashes
  // ---------------------------------------------------------------------------

  /** Thirty-two random nibbles: the sixteen random bytes of a UUID, high nibble first. */
  predicate Nibbles(r: seq<nat>) {
    |r| == 32 && forall i :: 0 <= i < 32 ==> r[i] < 16
  }

  /** Nibble `i` of a version-4 UUID: nibble 12 is the version 4, nibble 16 carries the variant bits 10. */
  function UuidNibble(r: seq<nat>, i: nat): (d: nat)
    requires Nibbles(r) && i < 32
    ensures d < 16
    ensures i == 12 ==> d == 4
    ensures i == 16 ==> 8 <= d < 12
  {
    if i == 12 then 4 else if i == 16 then 8 + r[i] % 4 else r[i]
  }

  /** The 32 lower-case hexadecimal digits of the UUID. */
  function UuidHex(r: seq<nat>): (h: string)
    requires Nibbles(r)
    ensures |h| == 32
  {
    seq(32, i requires 0 <= i < 32 => HexChar(UuidNibble(r, i)))
  }

  /** `str(uuid)`: the digits in groups of 8-4-4-4-12 joined by dashes. */
  function UuidText(r: seq<nat>): string
    requires Nibbles(r)
  {
    var h := UuidHex(r);
    h[..8] + "-" + h[8..12] + "-" + h[12..16] + "-" + h[16..20] + "-" + h[20..]
  }

  /** `generate_id()`, given the random nibbles. */
  function GenerateId(r: seq<nat>): string
    requires Nibbles(r)
  {
    RemoveAll(UuidText(r), '-')
  }

  predicate IsLowerHex(c: char) {
    ('0' <= c <= '9') || ('a' <= c <= 'f')
  }

  /** HexChar writes lower-case hexadecimal digits. */
  lemma HexCharIsLowerHex(d: nat)
    requires d < 16
    ensures IsLowerHex(HexChar(d)) && HexChar(d) != '-'
  {
    var digits := "0123456789abcdef";
    assert HexChar(d) == digits[d];
    assert forall k :: 0 <= k < 16 ==> IsLowerHex(digits[k]);
  }

  /** Removing dashes from `x + "-" + e` when `e` has none. */
  lemma DropDash(x: string, e: string)
    requires '-' !in e
    ensures RemoveAll(x + "-" + e, '-') == RemoveAll(x, '-') + e
  {
    var dash := "-";
    RemoveAllConcat(x + dash, e, '-');
    RemoveAllConcat(x, dash, '-');
    RemoveAllAbsent(e, '-');
    assert RemoveAll(dash, '-') == [] by {
      assert dash[0] == '-' && dash[1..] == [];
    }
    assert RemoveAll(x, '-') + [] == RemoveAll(x, '-');
  }

  /** An id is exactly the 32 UUID digits: no dash, lower-case hex, version digit '4'. */
  lemma GenerateIdShape(r: seq<nat>)
    requires Nibbles(r)
    ensures GenerateId(r) == UuidHex(r)
    ensures |GenerateId(r)| == 32 && '-' !in GenerateId(r)
    ensures forall k :: 0 <= k < 32 ==> IsLowerHex(GenerateId(r)[k])
    ensures GenerateId(r)[12] == '4'
  {
    var h := UuidHex(r);
    forall k | 0 <= k < 32
      ensures IsLowerHex(h[k]) && h[k] != '-'
    {
      HexCharIsLowerHex(UuidNibble(r, k));
    }
    var a, b, c, d, e := h[..8], h[8..12], h[12..16], h[16..20], h[20..];
    DropDash(a + "-" + b + "-" + c + "-" + d, e);
    DropDash(a + "-" + b + "-" + c, d);
    DropDash(a + "-" + b, c);
    DropDash(a, b);
    RemoveAllAbsent(a, '-');
    assert GenerateId(r) == a + b + c + d + e;
    assert a + b == h[..12];
    assert a + b + c == h[..16];
    assert a + b + c + d == h[..20];
    assert h[..20] + e == h;
    assert HexChar(4) == '4';
  }

  // ---------------------------------------------------------------------------
  // Users
  // ---------------------------------------------------------------------------

  datatype User = User(
    id: string,
    username: string,
    email: string,
    passwordHash: string,
    phone: Option<string>,
    profileImageUrl: Option<string>,
    isActive: bool,
    isVerified: bool,
    createdAt: Option<int>,
    updatedAt: Option<int>)

  /** A nullable text column as a JSON value. */
  function NullableStr(v: Option<string>): Json {
    match v
    case Some(s) => JStr(s)
    case None => JNull
  }

  /** A nullable timestamp as served: the instant when set, null otherwise. */
  function NullableTime(t: Option<int>): Json {
    match t
    case Some(n) => JNum(n)
    case None => JNull
  }

  /** The keys of a served user record, in order. */
  const UserDictKeys: seq<string> :=
    ["id", "username", "email", "phone", "profile_image_url", "is_active", "is_verified", "created_at", "updated_at"]

  function MemberKeys(ms: seq<Member>): (ks: seq<string>)
    ensures |ks| == |ms|
    ensures forall i :: 0 <= i < |ms| ==> ks[i] == ms[i].key
  {
    if ms == [] then [] else [ms[0].key] + MemberKeys(ms[1..])
  }

  /** `User.to_dict()`: the public fields, never the password hash. */
  function UserToDict(u: User): (r: Json)
    ensures r.JObj? && MemberKeys(r.members) == UserDictKeys
  {
    JObj([
      Member("id", JStr(u.id)),
      Member("username", JStr(u.username)),
      Member("email", JStr(u.email)),
      Member("phone", NullableStr(u.phone)),
      Member("profile_image_url", NullableStr(u.profileImageUrl)),
      Member("is_active", JBool(u.isActive)),
      Member("is_verified", JBool(u.isVerified)),
      Member("created_at", NullableTime(u.createdAt)),
      Member("updated_at", NullableTime(u.updatedAt))])
  }

  /** A property list has a property exactly when its key list holds the name. */
  lemma HasKeyIff(ms: seq<Member>, k: string)
    ensures HasKey(ms, k) <==> k in MemberKeys(ms)
  {
    if HasKey(ms, k) {
      var i :| 0 <= i < |ms| && ms[i].key == k;
      assert MemberKeys(ms)[i] == k;
    }
  }

  /** The served record's keys are distinct and do not include the password hash. */
  lemma UserDictKeysShape(u: User)
    ensures DistinctKeys(UserToDict(u).members)
    ensures !HasKey(UserToDict(u).members, "password_hash")
  {
    var ms := UserToDict(u).members;
    var ks := MemberKeys(ms);
    UserDictKeysDistinct();
    forall i, j | 0 <= i < j < |ms|
      ensures ms[i].key != ms[j].key
    {
      assert ms[i].key == ks[i] && ms[j].key == ks[j];
    }
    HasKeyIff(ms, "password_hash");
  }

  /** The nine served names are distinct, and the password hash is not among them. */
  lemma UserDictKeysDistinct()
    ensures forall i, j :: 0 <= i < j < |UserDictKeys| ==> UserDictKeys[i] != UserDictKeys[j]
    ensures "password_hash" !in UserDictKeys
  {
    var ks := UserDictKeys;
    var lens := [2, 8, 5, 5, 17, 9, 11, 10, 10];
    assert forall i :: 0 <= i < |ks| ==> |ks[i]| == lens[i];
    assert ks[2][0] != ks[3][0] && ks[7][0] != ks[8][0];
    assert |"password_hash"| == 13;
  }

  /** The served record carries the user's identity, and null exactly for a missing timestamp. */
  lemma UserDictFields(u: User)
    ensures Get(UserToDict(u), "id") == Some(JStr(u.id))
    ensures Get(UserToDict(u), "username") == Some(JStr(u.username))
    ensures Get(UserToDict(u), "created_at") == Some(JNull) <==> u.createdAt.None?
    ensures Get(UserToDict(u), "updated_at") == Some(JNull) <==> u.updatedAt.None?
  {
    var ms := UserToDict(u).members;
    UserDictKeysShape(u);
    LookupAt(ms, 0);
    LookupAt(ms, 1);
    LookupAt(ms, 7);
    LookupAt(ms, 8);
  }

  // ---------------------------------------------------------------------------
  // Categories and their seeding
  // ---------------------------------------------------------------------------

  datatype Category = Category(id: string, name: string, description: Option<string>, createdAt: int)

  /** The categories table, keyed by the unique name. */
  type CategoryTable = map<string, Category>

  /** The default categories, as (name, description), in seeding order. */
  const DefaultCategories: seq<(string, string)> := [
    ("일반", "일반적인 게시글"),
    ("공지사항", "중요한 공지사항"),
    ("질문", "질문과 답변"),
    ("리뷰", "제품이나 서비스 리뷰"),
    ("자유게시판", "자유로운 이야기"),
    ("기술", "기술 관련 게시글"),
    ("일상", "일상적인 이야기")]

  /** One step of the seeding: the default is added under `id` unless its name exists. */
  function SeedOne(table: CategoryTable, d: (string, string), id: string, now: int): CategoryTable {
    if d.0 in table then table else table[d.0 := Category(id, d.0, Some(d.1), now)]
  }

  /**
   * The table after seeding `defaults` in order: the i-th default is added
   * under `ids[i]` when its name is missing, and `ids[i]` goes unused when it
   * is present. The specification of init_categories.
   */
  function Seeded(table: CategoryTable, defaults: seq<(string, string)>, ids: seq<string>, now: int): CategoryTable
    requires |ids| == |defaults|
    decreases |defaults|
  {
    if defaults == [] then table
    else
      var n := |defaults| - 1;
      SeedOne(Seeded(table, defaults[..n], ids[..n], now), defaults[n], ids[n], now)
  }

  /** `init_categories()`: walks the defaults and adds each one whose name is missing. */
  method InitCategories(table: CategoryTable, ids: seq<string>, now: int) returns (r: CategoryTable)
    requires |ids| == |DefaultCategories|
    ensures r == Seeded(table, DefaultCategories, ids, now)
  {
    r := table;
    var i := 0;
    while i < |DefaultCategories|
      invariant 0 <= i <= |DefaultCategories|
      invariant r == Seeded(table, DefaultCategories[..i], ids[..i], now)
    {
      var d := DefaultCategories[i];
      if d.0 !in r {
        r := r[d.0 := Category(ids[i], d.0, Some(d.1), now)];
      }
      assert DefaultCategories[..i + 1][..i] == DefaultCategories[..i];
      assert ids[..i + 1][..i] == ids[..i];
      i := i + 1;
    }
    assert DefaultCategories[..i] == DefaultCategories;
    assert ids[..i] == ids;
  }

  /** Seeding adds exactly the missing default names and keeps every existing row. */
  lemma {:induction false} SeededContents(table: CategoryTable, defaults: seq<(string, string)>, ids: seq<string>, now: int)
    requires |ids| == |defaults|
    ensures forall i :: 0 <= i < |defaults| ==> defaults[i].0 in Seeded(table, defaults, ids, now)
    ensures forall n :: n in Seeded(table, defaults, ids, now) <==> n in table || exists i :: 0 <= i < |defaults| && defaults[i].0 == n
    ensures forall n :: n in table ==> Seeded(table, defaults, ids, now)[n] == table[n]
    decreases |defaults|
  {
    if defaults != [] {
      var n := |defaults| - 1;
      SeededContents(table, defaults[..n], ids[..n], now);
      forall i | 0 <= i < n ensures defaults[..n][i] == defaults[i] { }
    }
  }

  /** Seeding a table that already holds every default name changes nothing. */
  lemma {:induction false} SeededNoop(table: CategoryTable, defaults: seq<(string, string)>, ids: seq<string>, now: int)
    requires |ids| == |defaults|
    requires forall i :: 0 <= i < |defaults| ==> defaults[i].0 in table
    ensures Seeded(table, defaults, ids, now) == table
    decreases |defaults|
  {
    if defaults != [] {
      var n := |defaults| - 1;
      assert forall i :: 0 <= i < n ==> defaults[..n][i] == defaults[i];
      SeededNoop(table, defaults[..n], ids[..n], now);
    }
  }

  /** After init_categories every default exists, and a second run changes nothing. */
  lemma InitCategoriesIdempotent(table: CategoryTable, ids: seq<string>, ids2: seq<string>, now: int, later: int)
    requires |ids| == |DefaultCategories| && |ids2| == |DefaultCategories|
    ensures forall i :: 0 <= i < |DefaultCategories| ==> DefaultCategories[i].0 in Seeded(table, DefaultCategories, ids, now)
    ensures Seeded(Seeded(table, DefaultCategories, ids, now), DefaultCategories, ids2, later) == Seeded(table, DefaultCategories, ids, now)
  {
    SeededContents(table, DefaultCategories, ids, now);
    SeededNoop(Seeded(table, DefaultCategories, ids, now), DefaultCategories, ids2, later);
  }

  // ---------------------------------------------------------------------------
  // Posts
  // ---------------------------------------------------------------------------

  /** A row of the posts table. */
  datatype Post = Post(
    id: string,
    author: string,
    authorId: Option<string>,
    category: string,
    categoryId: Option<string>,
    title: string,
    content: string,
    contentMd: Option<string>,
    contentS3url: Option<string>,
    visibility: string,
    status: string,
    viewCount: int,
    likeCount: int,
    commentCount: int,
    createdAt: int,
    updatedAt: int)

  const DefaultCategory: string := "일반"

  /** `Post(title=..., content=..., author=..., category=...)` inserted at `now`: every other column takes its default. */
  function NewPost(id: string, title: string, content: string, author: string, category: Option<string>, now: int): (p: Post)
    ensures p.id == id && p.title == title && p.content == content && p.author == author
    ensures p.category == (if category.Some? then category.value else "일반")
    ensures p.visibility == "PUBLIC" && p.status == "PUBLISHED"
    ensures p.viewCount == 0 && p.likeCount == 0 && p.commentCount == 0
    ensures p.authorId.None? && p.categoryId.None? && p.contentMd.None? && p.contentS3url.None?
    ensures p.createdAt == now && p.updatedAt == now
  {
    Post(id, author, None, category.GetOr(DefaultCategory), None, title, content, None, None,
         "PUBLIC", "PUBLISHED", 0, 0, 0, now, now)
  }
}
