/**
 * JSON values as both sides of the system exchange them, with `JSON.stringify`
 * (Encode) and `JSON.parse` (Decode).  Browser storage keeps JSON text, so the
 * session round trips rest on Decode(Encode(j)) == Some(j).
 *
 * An object is the sequence of its properties in insertion order; a property
 * whose value is `undefined` is not there at all (JSON.stringify drops it).
 * Numbers are integers.
 */
module Json {
  import opened Wrappers
  import opened Text

  datatype Json =
    | JNull
    | JBool(b: bool)
    | JNum(n: int)
    | JStr(s: string)
    | JArr(items: seq<Json>)
    | JObj(members: seq<Member>)

  datatype Member = Member(key: string, value: Json)

  // ---------------------------------------------------------------------------
  // Objects as property lists
  // ---------------------------------------------------------------------------

  predicate DistinctKeys(ms: seq<Member>) {
    forall i, j :: 0 <= i < j < |ms| ==> ms[i].key != ms[j].key
  }

  predicate HasKey(ms: seq<Member>, k: string) {
    exists i :: 0 <= i < |ms| && ms[i].key == k
  }

  /** Every object inside `j` has distinct property names, as every JavaScript object does. */
  predicate WellFormed(j: Json)
    decreases j
  {
    match j
    case JArr(items) => forall i :: 0 <= i < |items| ==> WellFormed(items[i])
    case JObj(ms) => DistinctKeys(ms) && forall i :: 0 <= i < |ms| ==> WellFormed(ms[i].value)
    case _ => true
  }

  /** The value of property `k`, or None for `undefined`. */
  function Lookup(ms: seq<Member>, k: string): (r: Option<Json>)
    ensures r.Some? <==> HasKey(ms, k)
  {
    if ms == [] then None
    else if ms[0].key == k then Some(ms[0].value)
    else
      var r := Lookup(ms[1..], k);
      assert forall i :: 0 < i < |ms| ==> ms[i] == ms[1..][i - 1];
      r
  }

  /** `obj.k` on any value: properties exist only on objects. */
  function Get(j: Json, k: string): Option<Json> {
    if j.JObj? then Lookup(j.members, k) else None
  }

  /** With distinct names, looking up the name at index `i` finds that property. */
  lemma {:induction false} LookupAt(ms: seq<Member>, i: int)
    requires DistinctKeys(ms) && 0 <= i < |ms|
    ensures Lookup(ms, ms[i].key) == Some(ms[i].value)
  {
    if i > 0 {
      assert ms[0].key != ms[i].key;
      assert forall a :: 0 <= a < |ms[1..]| ==> ms[1..][a] == ms[a + 1];
      LookupAt(ms[1..], i - 1);
    }
  }

  /** Putting `x` in front of a property list that lacks its name keeps the names distinct. */
  lemma ConsDistinct(x: Member, rest: seq<Member>)
    ensures DistinctKeys(rest) && !HasKey(rest, x.key) ==> DistinctKeys([x] + rest)
  {
    if DistinctKeys(rest) && !HasKey(rest, x.key) {
      forall i, j | 0 <= i < j < |[x] + rest|
        ensures ([x] + rest)[i].key != ([x] + rest)[j].key
      {
        if i == 0 {
          assert ([x] + rest)[j] == rest[j - 1];
        } else {
          assert ([x] + rest)[i] == rest[i - 1];
          assert ([x] + rest)[j] == rest[j - 1];
        }
      }
    }
  }

  /** Assignment `obj[k] = v`: an existing property keeps its place, a new one goes last. */
  function Put(ms: seq<Member>, k: string, v: Json): (r: seq<Member>)
    ensures Lookup(r, k) == Some(v)
    ensures forall k' :: k' != k ==> Lookup(r, k') == Lookup(ms, k')
    ensures DistinctKeys(ms) ==> DistinctKeys(r)
    ensures !HasKey(ms, k) ==> r == ms + [Member(k, v)]
  {
    if ms == [] then
      assert [] + [Member(k, v)] == [Member(k, v)];
      [Member(k, v)]
    else if ms[0].key == k then
      PutHere(ms, k, v);
      [Member(k, v)] + ms[1..]
    else
      var rest := Put(ms[1..], k, v);
      PutThere(ms, k, v, rest);
      [ms[0]] + rest
  }

  /** Put when the first property has the name: its value is replaced in place. */
  lemma PutHere(ms: seq<Member>, k: string, v: Json)
    requires ms != [] && ms[0].key == k
    ensures var r := [Member(k, v)] + ms[1..];
      && Lookup(r, k) == Some(v)
      && (forall k' :: k' != k ==> Lookup(r, k') == Lookup(ms, k'))
      && (DistinctKeys(ms) ==> DistinctKeys(r))
      && HasKey(ms, k)
  {
    var r := [Member(k, v)] + ms[1..];
    assert r[1..] == ms[1..];
    assert DistinctKeys(ms) ==> DistinctKeys(ms[1..]) && !HasKey(ms[1..], k);
    ConsDistinct(Member(k, v), ms[1..]);
  }

  /** Put when the first property has another name: it stays first, and the rest is updated. */
  lemma PutThere(ms: seq<Member>, k: string, v: Json, rest: seq<Member>)
    requires ms != [] && ms[0].key != k
    requires Lookup(rest, k) == Some(v)
    requires forall k' :: k' != k ==> Lookup(rest, k') == Lookup(ms[1..], k')
    requires DistinctKeys(ms[1..]) ==> DistinctKeys(rest)
    requires !HasKey(ms[1..], k) ==> rest == ms[1..] + [Member(k, v)]
    ensures var r := [ms[0]] + rest;
      && Lookup(r, k) == Some(v)
      && (forall k' :: k' != k ==> Lookup(r, k') == Lookup(ms, k'))
      && (DistinctKeys(ms) ==> DistinctKeys(r))
      && (!HasKey(ms, k) ==> r == ms + [Member(k, v)])
  {
    var r := [ms[0]] + rest;
    assert r[0] == ms[0] && r[1..] == rest;
    assert Lookup(r, k) == Lookup(rest, k);
    forall k' | k' != k
      ensures Lookup(r, k') == Lookup(ms, k')
    {
      PutThereOther(ms, rest, k');
    }
    if DistinctKeys(ms) {
      PutThereDistinct(ms, k, v, rest);
    }
    if !HasKey(ms, k) {
      PutThereAppend(ms, k, v, rest);
    }
  }

  /** Consing the same first property onto two lists that agree on `k'` keeps them agreeing. */
  lemma PutThereOther(ms: seq<Member>, rest: seq<Member>, k': string)
    requires ms != [] && Lookup(rest, k') == Lookup(ms[1..], k')
    ensures Lookup([ms[0]] + rest, k') == Lookup(ms, k')
  {
    var r := [ms[0]] + rest;
    assert r[0] == ms[0] && r[1..] == rest;
  }

  lemma PutThereAppend(ms: seq<Member>, k: string, v: Json, rest: seq<Member>)
    requires ms != [] && !HasKey(ms, k)
    requires !HasKey(ms[1..], k) ==> rest == ms[1..] + [Member(k, v)]
    ensures [ms[0]] + rest == ms + [Member(k, v)]
  {
    assert !HasKey(ms[1..], k) by {
      forall i | 0 <= i < |ms[1..]|
        ensures ms[1..][i].key != k
      {
        assert ms[1..][i] == ms[i + 1];
      }
    }
    assert ms == [ms[0]] + ms[1..];
  }

  lemma PutThereDistinct(ms: seq<Member>, k: string, v: Json, rest: seq<Member>)
    requires ms != [] && ms[0].key != k && DistinctKeys(ms)
    requires forall k' :: k' != k ==> Lookup(rest, k') == Lookup(ms[1..], k')
    requires DistinctKeys(ms[1..]) ==> DistinctKeys(rest)
    ensures DistinctKeys([ms[0]] + rest)
  {
    assert DistinctKeys(ms[1..]);
    assert !HasKey(ms[1..], ms[0].key);
    assert Lookup(rest, ms[0].key) == Lookup(ms[1..], ms[0].key);
    ConsDistinct(ms[0], rest);
  }

  /** Deleting property `k` (what assigning `undefined` amounts to once stringified). */
  function Remove(ms: seq<Member>, k: string): (r: seq<Member>)
    ensures Lookup(r, k) == None
    ensures forall k' :: k' != k ==> Lookup(r, k') == Lookup(ms, k')
    ensures DistinctKeys(ms) ==> DistinctKeys(r)
  {
    if ms == [] then []
    else if ms[0].key == k then
      assert DistinctKeys(ms) ==> DistinctKeys(ms[1..]);
      Remove(ms[1..], k)
    else
      var rest := Remove(ms[1..], k);
      assert HasKey(ms[1..], ms[0].key) ==> !DistinctKeys(ms);
      assert DistinctKeys(ms) ==> DistinctKeys(ms[1..]);
      assert Lookup(rest, ms[0].key) == Lookup(ms[1..], ms[0].key);
      ConsDistinct(ms[0], rest);
      assert ([ms[0]] + rest)[1..] == rest;
      [ms[0]] + rest
  }

  /** `{...obj, k: e}` where `e` may evaluate to `undefined`. */
  function SetProp(ms: seq<Member>, k: string, v: Option<Json>): (r: seq<Member>)
    ensures Lookup(r, k) == v
    ensures forall k' :: k' != k ==> Lookup(r, k') == Lookup(ms, k')
    ensures DistinctKeys(ms) ==> DistinctKeys(r)
  {
    match v
    case Some(x) => Put(ms, k, x)
    case None => Remove(ms, k)
  }

  /** A property read from a well-formed object is well-formed. */
  lemma LookupWellFormed(ms: seq<Member>, k: string)
    requires WellFormed(JObj(ms))
    ensures Lookup(ms, k).Some? ==> WellFormed(Lookup(ms, k).value)
  {
  }

  /** Setting a well-formed value, or removing a property, keeps an object well-formed. */
  lemma SetPropWellFormed(ms: seq<Member>, k: string, v: Option<Json>)
    requires WellFormed(JObj(ms))
    requires v.Some? ==> WellFormed(v.value)
    ensures WellFormed(JObj(SetProp(ms, k, v)))
  {
    var r := SetProp(ms, k, v);
    forall i | 0 <= i < |r|
      ensures WellFormed(r[i].value)
    {
      LookupAt(r, i);
      if r[i].key != k {
        LookupWellFormed(ms, r[i].key);
      }
    }
  }

  function StrOpt(s: string): Option<Json> { Some(JStr(s)) }

  // ---------------------------------------------------------------------------
  // Truthiness and string conversion
  // ---------------------------------------------------------------------------

  /** JavaScript truthiness. */
  predicate JsTruthy(j: Json) {
    match j
    case JNull => false
    case JBool(b) => b
    case JNum(n) => n != 0
    case JStr(s) => s != ""
    case _ => true
  }

  /** JavaScript truthiness of a value that may be `undefined`. */
  predicate Truthy(o: Option<Json>) {
    o.Some? && JsTruthy(o.value)
  }

  /** Python truthiness: empty containers are false as well. */
  predicate PyTruthy(j: Json) {
    match j
    case JNull => false
    case JBool(b) => b
    case JNum(n) => n != 0
    case JStr(s) => s != ""
    case JArr(items) => items != []
    case JObj(ms) => ms != []
  }

  function IntToString(n: int): string {
    if n < 0 then "-" + NatToString(-n) else NatToString(n)
  }

  /** `String(v)`, which template literals and `new Error(v)` apply. */
  function JsToString(j: Json): string
    decreases j
  {
    match j
    case JNull => "null"
    case JBool(b) => if b then "true" else "false"
    case JNum(n) => IntToString(n)
    case JStr(s) => s
    case JArr(items) => JoinItems(items)
    case JObj(_) => "[object Object]"
  }

  /** `Array.prototype.join(",")`, which writes null elements as nothing. */
  function JoinItems(items: seq<Json>): string
    decreases items
  {
    if items == [] then ""
    else
      var first := if items[0].JNull? then "" else JsToString(items[0]);
      if |items| == 1 then first else first + "," + JoinItems(items[1..])
  }

  /** `String(v)` for a value that may be `undefined`. */
  function OptToString(o: Option<Json>): string {
    match o
    case None => "undefined"
    case Some(j) => JsToString(j)
  }

  // ---------------------------------------------------------------------------
  // JSON.stringify
  // ---------------------------------------------------------------------------

  function HexChar(d: nat): (c: char)
    requires d < 16
  {
    "0123456789abcdef"[d]
  }

  /** How JSON.stringify writes one character inside a string literal. */
  function EscapeChar(c: char): (r: string)
    ensures |r| >= 1 && r[0] != '"' && (r[0] == '\\' || r[0] == c)
  {
    if c == '"' then "\\\""
    else if c == '\\' then "\\\\"
    else if c == '\U{8}' then "\\b"
    else if c == '\U{C}' then "\\f"
    else if c == '\n' then "\\n"
    else if c == '\r' then "\\r"
    else if c == '\t' then "\\t"
    else if c < ' ' then "\\u00" + [HexChar(c as int / 16), HexChar(c as int % 16)]
    else [c]
  }

  function Escape(s: string): string {
    if s == [] then [] else EscapeChar(s[0]) + Escape(s[1..])
  }

  function Quote(s: string): (r: string)
    ensures |r| >= 2 && r[0] == '"'
  {
    "\"" + Escape(s) + "\""
  }

  function Encode(j: Json): (r: string)
    decreases j
  {
    match j
    case JNull => "null"
    case JBool(b) => if b then "true" else "false"
    case JNum(n) => IntToString(n)
    case JStr(s) => Quote(s)
    case JArr(items) => "[" + EncodeItems(items) + "]"
    case JObj(ms) => "{" + EncodeMembers(ms) + "}"
  }

  function EncodeItems(items: seq<Json>): string
    decreases items
  {
    if items == [] then ""
    else if |items| == 1 then Encode(items[0])
    else Encode(items[0]) + "," + EncodeItems(items[1..])
  }

  function EncodeMember(m: Member): (r: string)
    ensures r != [] && r[0] == '"'
    decreases m
  {
    Quote(m.key) + ":" + Encode(m.value)
  }

  function EncodeMembers(ms: seq<Member>): (r: string)
    ensures ms != [] ==> r != [] && r[0] == '"'
    decreases ms
  {
    if ms == [] then ""
    else if |ms| == 1 then EncodeMember(ms[0])
    else EncodeMember(ms[0]) + "," + EncodeMembers(ms[1..])
  }

  // ---------------------------------------------------------------------------
  // JSON.parse
  // ---------------------------------------------------------------------------

  predicate IsJsonSpace(c: char) {
    c == ' ' || c == '\t' || c == '\n' || c == '\r'
  }

  function SkipSpace(s: string): (r: string)
    ensures |r| <= |s|
    ensures r == [] || !IsJsonSpace(r[0])
  {
    if s != [] && IsJsonSpace(s[0]) then SkipSpace(s[1..]) else s
  }

  function HexValue(c: char): Option<nat> {
    if '0' <= c <= '9' then Some(c as int - '0' as int)
    else if 'a' <= c <= 'f' then Some(c as int - 'a' as int + 10)
    else if 'A' <= c <= 'F' then Some(c as int - 'A' as int + 10)
    else None
  }

  /** The code unit written by four hex digits. */
  function HexQuad(h: string): (r: Option<nat>)
    requires |h| == 4
    ensures r.Some? ==> r.value < 0x1_0000
  {
    match (HexValue(h[0]), HexValue(h[1]), HexValue(h[2]), HexValue(h[3]))
    case (Some(a), Some(b), Some(c), Some(d)) =>
      if a < 16 && b < 16 && c < 16 && d < 16 then Some(((a * 16 + b) * 16 + c) * 16 + d) else None
    case _ => None
  }

  /** The character a UTF-16 high surrogate `hi` and low surrogate `lo` encode together. */
  function PairedChar(hi: nat, lo: nat): (c: char)
    requires 0xD800 <= hi < 0xDC00 && 0xDC00 <= lo < 0xE000
    ensures 0x1_0000 <= c as int < 0x11_0000
    ensures (c as int - 0x1_0000) / 0x400 == hi - 0xD800 && (c as int - 0x1_0000) % 0x400 == lo - 0xDC00
  {
    (0x1_0000 + (hi - 0xD800) * 0x400 + (lo - 0xDC00)) as char
  }

  /** Reads one character of a string literal body (not the closing quote). */
  function ParseChar(s: string): (r: Option<(char, string)>)
    requires s != []
    ensures r.Some? ==> |r.value.1| < |s|
  {
    if s[0] == '\\' then
      if |s| < 2 then None
      else if s[1] == '"' then Some(('"', s[2..]))
      else if s[1] == '\\' then Some(('\\', s[2..]))
      else if s[1] == '/' then Some(('/', s[2..]))
      else if s[1] == 'b' then Some(('\U{8}', s[2..]))
      else if s[1] == 'f' then Some(('\U{C}', s[2..]))
      else if s[1] == 'n' then Some(('\n', s[2..]))
      else if s[1] == 'r' then Some(('\r', s[2..]))
      else if s[1] == 't' then Some(('\t', s[2..]))
      else if s[1] == 'u' && |s| >= 6 then
        match HexQuad(s[2..6])
        case None => None
        case Some(v) =>
          if 0xD800 <= v < 0xDC00 && |s| >= 12 && s[6] == '\\' && s[7] == 'u' then
            match HexQuad(s[8..12])
            case Some(w) =>
              if 0xDC00 <= w <= 0xDFFF then Some((PairedChar(v, w), s[12..])) else None
            case None => None
          else if 0xD800 <= v <= 0xDFFF then None
          else Some((v as char, s[6..]))
      else None
    else if s[0] < ' ' then None
    else Some((s[0], s[1..]))
  }

  /** Reads a string literal body up to and including its closing quote. */
  function ParseString(s: string): (r: Option<(string, string)>)
    ensures r.Some? ==> |r.value.1| < |s|
    decreases |s|
  {
    if s == [] then None
    else if s[0] == '"' then Some(([], s[1..]))
    else
      match ParseChar(s)
      case None => None
      case Some((c, t)) =>
        match ParseString(t)
        case None => None
        case Some((str, rest)) => Some(([c] + str, rest))
  }

  function TakeDigits(s: string): (r: string)
    ensures |r| <= |s|
    ensures AllDigits(r)
    ensures |r| < |s| ==> !IsDigit(s[|r|])
  {
    if s != [] && IsDigit(s[0]) then [s[0]] + TakeDigits(s[1..]) else []
  }

  /** An integer literal; a fraction or exponent is outside this model and fails. */
  function ParseNumber(s: string): (r: Option<(Json, string)>)
    requires s != []
    ensures r.Some? ==> |r.value.1| < |s|
  {
    if s[0] == '-' then ParseDigits(true, s[1..]) else ParseDigits(false, s)
  }

  /** The digits of an integer literal, after its optional minus sign. */
  function ParseDigits(neg: bool, body: string): (r: Option<(Json, string)>)
    ensures r.Some? ==> |r.value.1| < |body|
  {
    var digits := TakeDigits(body);
    var rest := body[|digits|..];
    if digits == [] || (|digits| > 1 && digits[0] == '0') then None
    else if rest != [] && (rest[0] == '.' || rest[0] == 'e' || rest[0] == 'E') then None
    else
      var n: int := DigitsValue(digits);
      Some((JNum(if neg then -n else n), rest))
  }

  /** The literal `word`, read as `v`. */
  function ParseWord(s: string, word: string, v: Json): (r: Option<(Json, string)>)
    requires word != []
    ensures r.Some? ==> |r.value.1| < |s|
  {
    if |s| >= |word| && s[..|word|] == word then Some((v, s[|word|..])) else None
  }

  /** A string value, after its opening quote. */
  function ParseQuoted(s: string): (r: Option<(Json, string)>)
    ensures r.Some? ==> |r.value.1| < |s|
  {
    match ParseString(s)
    case None => None
    case Some((str, rest)) => Some((JStr(str), rest))
  }

  function ParseValue(s: string): (r: Option<(Json, string)>)
    ensures r.Some? ==> |r.value.1| < |s|
    decreases |s|, 0
  {
    if s == [] then None
    else if s[0] == 'n' then ParseWord(s, "null", JNull)
    else if s[0] == 't' then ParseWord(s, "true", JBool(true))
    else if s[0] == 'f' then ParseWord(s, "false", JBool(false))
    else if s[0] == '"' then ParseQuoted(s[1..])
    else if s[0] == '[' then ParseArray(s[1..])
    else if s[0] == '{' then ParseObject(s[1..])
    else if s[0] == '-' || IsDigit(s[0]) then ParseNumber(s)
    else None
  }

  /** After '[': an empty array or the first element. */
  function ParseArray(s: string): (r: Option<(Json, string)>)
    ensures r.Some? ==> |r.value.1| < |s|
    decreases |s|, 2
  {
    var t := SkipSpace(s);
    if t != [] && t[0] == ']' then Some((JArr([]), t[1..])) else ParseElements(t, [])
  }

  /** One element, then ',' and more elements or the closing ']'. */
  function ParseElements(s: string, acc: seq<Json>): (r: Option<(Json, string)>)
    ensures r.Some? ==> |r.value.1| < |s|
    decreases |s|, 1
  {
    match ParseValue(SkipSpace(s))
    case None => None
    case Some((v, rest)) =>
      var t := SkipSpace(rest);
      if t != [] && t[0] == ',' then ParseElements(t[1..], acc + [v])
      else if t != [] && t[0] == ']' then Some((JArr(acc + [v]), t[1..]))
      else None
  }

  /** After '{': an empty object or the first property. */
  function ParseObject(s: string): (r: Option<(Json, string)>)
    ensures r.Some? ==> |r.value.1| < |s|
    decreases |s|, 2
  {
    var t := SkipSpace(s);
    if t != [] && t[0] == '}' then Some((JObj([]), t[1..])) else ParseMembers(t, [])
  }

  /** One property `"name": value` and the text after it. */
  function ParseMember(s: string): (r: Option<(Member, string)>)
    ensures r.Some? ==> |r.value.1| < |s|
    decreases |s|, 0
  {
    if s == [] || s[0] != '"' then None
    else
      match ParseString(s[1..])
      case None => None
      case Some((k, r1)) =>
        var r2 := SkipSpace(r1);
        if r2 == [] || r2[0] != ':' then None
        else
          match ParseValue(SkipSpace(r2[1..]))
          case None => None
          case Some((v, r3)) => Some((Member(k, v), r3))
  }

  /** One property, then ',' and more properties or the closing '}'; a repeated name keeps the last value. */
  function ParseMembers(s: string, acc: seq<Member>): (r: Option<(Json, string)>)
    ensures r.Some? ==> |r.value.1| < |s|
    decreases |s|, 1
  {
    match ParseMember(SkipSpace(s))
    case None => None
    case Some((m, rest)) =>
      var t := SkipSpace(rest);
      if t != [] && t[0] == ',' then ParseMembers(t[1..], Put(acc, m.key, m.value))
      else if t != [] && t[0] == '}' then Some((JObj(Put(acc, m.key, m.value)), t[1..]))
      else None
  }

  /** `JSON.parse(s)`: None where it would throw a SyntaxError. */
  function Decode(s: string): Option<Json> {
    match ParseValue(SkipSpace(s))
    case None => None
    case Some((j, rest)) => if SkipSpace(rest) == [] then Some(j) else None
  }

  // ---------------------------------------------------------------------------
  // Round trip
  // ---------------------------------------------------------------------------

  /** What may follow a value in JSON text without being read as part of it. */
  predicate Delimited(rest: string) {
    rest == [] || rest[0] == ',' || rest[0] == ']' || rest[0] == '}' || IsJsonSpace(rest[0])
  }

  /** A `\u` escaped surrogate pair reads as the one character it encodes, as in JSON.parse. */
  lemma SurrogatePairEscape(t: string)
    ensures ParseChar("\\uD83D\\uDE00" + t) == Some(('\U{1F600}', t))
  {
    var s := "\\uD83D\\uDE00" + t;
    assert s[2..6] == "D83D" && s[8..12] == "DE00";
    assert HexQuad(s[2..6]) == Some(0xD83D);
    assert HexQuad(s[8..12]) == Some(0xDE00);
    assert s[12..] == t;
  }

  lemma EscapeCharRoundTrip(c: char, t: string)
    ensures ParseChar(EscapeChar(c) + t) == Some((c, t))
  {
    var s := EscapeChar(c) + t;
    if c < ' ' && c != '\U{8}' && c != '\U{C}' && c != '\n' && c != '\r' && c != '\t' {
      var hi, lo := c as int / 16, c as int % 16;
      assert s[2..6] == ['0', '0', HexChar(hi), HexChar(lo)];
      assert HexValue(HexChar(hi)) == Some(hi);
      assert HexValue(HexChar(lo)) == Some(lo);
      assert HexQuad(s[2..6]) == Some(c as int);
      assert s[6..] == t;
    } else if EscapeChar(c) == [c] {
      assert s[1..] == t;
    } else {
      assert s[2..] == t;
    }
  }

  lemma {:induction false} StringRoundTrip(str: string, rest: string)
    ensures ParseString(Escape(str) + "\"" + rest) == Some((str, rest))
  {
    if str == [] {
      assert Escape(str) + "\"" + rest == "\"" + rest;
    } else {
      var s := Escape(str) + "\"" + rest;
      var t := Escape(str[1..]) + "\"" + rest;
      assert s == EscapeChar(str[0]) + t;
      assert s != [] && s[0] == EscapeChar(str[0])[0] && s[0] != '"';
      EscapeCharRoundTrip(str[0], t);
      StringRoundTrip(str[1..], rest);
      assert [str[0]] + str[1..] == str;
    }
  }

  /** The characters a JSON value can start with. */
  predicate StartsValue(c: char) {
    c == 'n' || c == 't' || c == 'f' || c == '"' || c == '[' || c == '{' || c == '-' || IsDigit(c)
  }

  /** A value's text starts like a value, so never with white space, ']' or '}'. */
  lemma EncodeStart(j: Json)
    ensures Encode(j) != [] && StartsValue(Encode(j)[0])
  {
    match j
    case JNum(n) =>
      if n < 0 {
        assert Encode(j)[0] == '-';
      } else {
        assert IsDigit(NatToString(n)[0]);
      }
    case _ =>
  }

  lemma NumberRoundTrip(n: int, rest: string)
    requires Delimited(rest)
    ensures ParseValue(Encode(JNum(n)) + rest) == Some((JNum(n), rest))
  {
    var s := Encode(JNum(n)) + rest;
    if n < 0 {
      assert s == "-" + NatToString(-n) + rest;
      NumberNegative(-n, rest);
    } else {
      assert s == NatToString(n) + rest;
      assert s[0] == NatToString(n)[0];
      NumberNonNegative(n, rest);
    }
    ParseValueNumber(s);
  }

  /** The digits of `m`, followed by a delimiter, read back as `m`. */
  lemma NumberNonNegative(m: nat, rest: string)
    requires Delimited(rest)
    ensures ParseNumber(NatToString(m) + rest) == Some((JNum(m), rest))
  {
    var s := NatToString(m) + rest;
    assert s[0] == NatToString(m)[0];
    DigitsRoundTrip(false, m, rest);
  }

  /** A minus sign and the digits of `m`, followed by a delimiter, read back as -m. */
  lemma NumberNegative(m: nat, rest: string)
    requires Delimited(rest)
    ensures ParseNumber("-" + NatToString(m) + rest) == Some((JNum(-(m as int)), rest))
  {
    var s := "-" + NatToString(m) + rest;
    assert s[1..] == NatToString(m) + rest;
    DigitsRoundTrip(true, m, rest);
  }

  lemma DigitsRoundTrip(neg: bool, m: nat, rest: string)
    requires Delimited(rest)
    ensures ParseDigits(neg, NatToString(m) + rest) == Some((JNum(if neg then -(m as int) else m), rest))
  {
    var digits := NatToString(m);
    var body := digits + rest;
    assert rest == [] || !IsDigit(rest[0]);
    TakeDigitsPrefix(digits, rest);
    assert body[|digits|..] == rest;
    NatToStringValue(m);
  }

  lemma ParseValueNumber(s: string)
    requires s != [] && (s[0] == '-' || IsDigit(s[0]))
    ensures ParseValue(s) == ParseNumber(s)
  {
    assert s[0] != 'n' && s[0] != 't' && s[0] != 'f' && s[0] != '"' && s[0] != '[' && s[0] != '{';
  }

  lemma TakeDigitsPrefix(digits: string, rest: string)
    requires AllDigits(digits)
    requires rest == [] || !IsDigit(rest[0])
    ensures TakeDigits(digits + rest) == digits
  {
    var s := digits + rest;
    var r := TakeDigits(s);
    TakeDigitsIsPrefix(s);
    assert r == s[..|digits|] == digits;
  }

  lemma {:induction false} TakeDigitsIsPrefix(s: string)
    ensures TakeDigits(s) == s[..|TakeDigits(s)|]
  {
    if s != [] && IsDigit(s[0]) {
      TakeDigitsIsPrefix(s[1..]);
      assert TakeDigits(s) == [s[0]] + TakeDigits(s[1..]);
    }
  }

  lemma SkipSpaceNoop(s: string)
    requires s == [] || !IsJsonSpace(s[0])
    ensures SkipSpace(s) == s
  {
  }

  lemma LiteralRoundTrip(j: Json, rest: string)
    requires j.JNull? || j.JBool?
    ensures ParseValue(Encode(j) + rest) == Some((j, rest))
  {
    var s := Encode(j) + rest;
    if j.JNull? || j.b {
      assert s[..4] == Encode(j);
      assert s[4..] == rest;
    } else {
      assert s[..5] == "false";
      assert s[5..] == rest;
    }
    assert |Encode(j)| >= 4;
  }

  lemma {:induction false} ValueRoundTrip(j: Json, rest: string)
    requires WellFormed(j) && Delimited(rest)
    ensures ParseValue(Encode(j) + rest) == Some((j, rest))
    decreases j, 2
  {
    match j
    case JNull => LiteralRoundTrip(j, rest);
    case JBool(_) => LiteralRoundTrip(j, rest);
    case JNum(n) => NumberRoundTrip(n, rest);
    case JStr(str) => QuotedRoundTrip(str, rest);
    case JArr(_) => ArrayRoundTrip(j, rest);
    case JObj(_) => ObjectRoundTrip(j, rest);
  }

  lemma QuotedRoundTrip(str: string, rest: string)
    ensures ParseValue(Quote(str) + rest) == Some((JStr(str), rest))
  {
    var s := Quote(str) + rest;
    assert s[0] == '"' && s[0] != 'n' && s[0] != 't' && s[0] != 'f';
    assert s[1..] == Escape(str) + "\"" + rest;
    StringRoundTrip(str, rest);
  }

  lemma ParseValueOpen(s: string)
    requires s != [] && (s[0] == '[' || s[0] == '{')
    ensures s[0] == '[' ==> ParseValue(s) == ParseArray(s[1..])
    ensures s[0] == '{' ==> ParseValue(s) == ParseObject(s[1..])
  {
    assert s[0] != 'n' && s[0] != 't' && s[0] != 'f' && s[0] != '"';
    if s[0] == '{' {
      assert s[0] != '[';
    }
  }

  /** One element read by ParseElements, followed by ',' or ']'. */
  lemma ElementsStep(s: string, acc: seq<Json>, v: Json, tail: string)
    requires s != [] && StartsValue(s[0])
    requires ParseValue(s) == Some((v, tail))
    requires tail != [] && (tail[0] == ',' || tail[0] == ']')
    ensures tail[0] == ',' ==> ParseElements(s, acc) == ParseElements(tail[1..], acc + [v])
    ensures tail[0] == ']' ==> ParseElements(s, acc) == Some((JArr(acc + [v]), tail[1..]))
  {
    SkipSpaceNoop(s);
    SkipSpaceNoop(tail);
  }

  /** One property read by ParseMember. */
  lemma MemberStep(s: string, k: string, afterKey: string, v: Json, tail: string)
    requires s != [] && s[0] == '"'
    requires ParseString(s[1..]) == Some((k, afterKey))
    requires afterKey != [] && afterKey[0] == ':'
    requires afterKey[1..] != [] && StartsValue(afterKey[1..][0])
    requires ParseValue(afterKey[1..]) == Some((v, tail))
    ensures ParseMember(s) == Some((Member(k, v), tail))
  {
    SkipSpaceNoop(afterKey);
    SkipSpaceNoop(afterKey[1..]);
  }

  /** One property read by ParseMembers, followed by ',' or '}'. */
  lemma MembersStep(s: string, acc: seq<Member>, m: Member, tail: string)
    requires s != [] && s[0] == '"'
    requires ParseMember(s) == Some((m, tail))
    requires tail != [] && (tail[0] == ',' || tail[0] == '}')
    requires !HasKey(acc, m.key)
    ensures tail[0] == ',' ==> ParseMembers(s, acc) == ParseMembers(tail[1..], acc + [m])
    ensures tail[0] == '}' ==> ParseMembers(s, acc) == Some((JObj(acc + [m]), tail[1..]))
  {
    SkipSpaceNoop(s);
    SkipSpaceNoop(tail);
    assert Put(acc, m.key, m.value) == acc + [m];
  }

  /** What ParseArray and ParseObject do on text that starts without white space. */
  lemma OpenStep(inner: string)
    requires inner != []
    ensures inner[0] == ']' ==> ParseArray(inner) == Some((JArr([]), inner[1..]))
    ensures StartsValue(inner[0]) ==> ParseArray(inner) == ParseElements(inner, [])
    ensures inner[0] == '}' ==> ParseObject(inner) == Some((JObj([]), inner[1..]))
    ensures inner[0] == '"' ==> ParseObject(inner) == ParseMembers(inner, [])
  {
    if inner[0] == ']' || inner[0] == '}' || StartsValue(inner[0]) {
      SkipSpaceNoop(inner);
    }
  }

  lemma ContainerText(j: Json, rest: string)
    requires j.JArr? || j.JObj?
    ensures j.JArr? ==> Encode(j) + rest == "[" + (EncodeItems(j.items) + "]" + rest)
    ensures j.JObj? ==> Encode(j) + rest == "{" + (EncodeMembers(j.members) + "}" + rest)
  {
    if j.JArr? {
      Regroup4("[", EncodeItems(j.items), "]", rest);
    } else {
      Regroup4("{", EncodeMembers(j.members), "}", rest);
    }
  }

  lemma Regroup4(a: string, b: string, c: string, d: string)
    ensures a + b + c + d == a + (b + c + d)
  {
  }

  lemma {:induction false} ArrayRoundTrip(j: Json, rest: string)
    requires j.JArr? && WellFormed(j)
    ensures ParseValue(Encode(j) + rest) == Some((j, rest))
    decreases j, 1
  {
    var items := j.items;
    var inner := EncodeItems(items) + "]" + rest;
    ContainerText(j, rest);
    ParseValueOpen(Encode(j) + rest);
    if items == [] {
      assert inner == "]" + rest;
      OpenStep(inner);
    } else {
      ItemsStart(items, "]" + rest);
      OpenStep(inner);
      ItemsRoundTrip(items, [], rest);
      assert [] + items == items;
    }
  }

  lemma {:induction false} ObjectRoundTrip(j: Json, rest: string)
    requires j.JObj? && WellFormed(j)
    ensures ParseValue(Encode(j) + rest) == Some((j, rest))
    decreases j, 1
  {
    var ms := j.members;
    var inner := EncodeMembers(ms) + "}" + rest;
    ContainerText(j, rest);
    ParseValueOpen(Encode(j) + rest);
    if ms == [] {
      assert inner == "}" + rest;
      OpenStep(inner);
    } else {
      MembersStart(ms, "}" + rest);
      OpenStep(inner);
      MembersRoundTrip(ms, [], rest);
      assert [] + ms == ms;
    }
  }

  lemma MembersStart(ms: seq<Member>, tail: string)
    requires ms != []
    ensures (EncodeMembers(ms) + tail) != [] && (EncodeMembers(ms) + tail)[0] == '"'
  {
    assert (EncodeMembers(ms) + tail)[0] == EncodeMembers(ms)[0];
  }

  lemma ItemsStart(items: seq<Json>, tail: string)
    requires items != []
    ensures (EncodeItems(items) + tail) != [] && StartsValue((EncodeItems(items) + tail)[0])
  {
    EncodeStart(items[0]);
    assert (EncodeItems(items) + tail)[0] == Encode(items[0])[0];
  }

  lemma ItemsText(items: seq<Json>, rest: string)
    requires items != []
    ensures |items| == 1 ==> EncodeItems(items) + "]" + rest == Encode(items[0]) + ("]" + rest)
    ensures |items| > 1 ==> EncodeItems(items) + "]" + rest == Encode(items[0]) + ("," + (EncodeItems(items[1..]) + "]" + rest))
  {
    if |items| == 1 {
      Regroup(Encode(items[0]), "]", rest);
    } else {
      Regroup5(Encode(items[0]), ",", EncodeItems(items[1..]), "]", rest);
    }
  }

  lemma Regroup(a: string, b: string, c: string)
    ensures a + b + c == a + (b + c)
  {
  }

  lemma Regroup5(a: string, b: string, c: string, d: string, e: string)
    ensures a + b + c + d + e == a + (b + (c + d + e))
  {
  }

  lemma ItemsTail(items: seq<Json>, acc: seq<Json>)
    requires |items| > 1
    requires forall i :: 0 <= i < |items| ==> WellFormed(items[i])
    ensures forall i :: 0 <= i < |items[1..]| ==> WellFormed(items[1..][i])
    ensures acc + [items[0]] + items[1..] == acc + items
  {
    assert forall i :: 0 <= i < |items[1..]| ==> items[1..][i] == items[i + 1];
  }

  lemma {:induction false} ItemsRoundTrip(items: seq<Json>, acc: seq<Json>, rest: string)
    requires items != []
    requires forall i :: 0 <= i < |items| ==> WellFormed(items[i])
    ensures ParseElements(EncodeItems(items) + "]" + rest, acc) == Some((JArr(acc + items), rest))
    decreases items, 0
  {
    var s := EncodeItems(items) + "]" + rest;
    EncodeStart(items[0]);
    ItemsText(items, rest);
    if |items| == 1 {
      ValueRoundTrip(items[0], "]" + rest);
      ElementsStep(s, acc, items[0], "]" + rest);
      assert acc + [items[0]] == acc + items;
    } else {
      var inner := EncodeItems(items[1..]) + "]" + rest;
      ValueRoundTrip(items[0], "," + inner);
      ElementsStep(s, acc, items[0], "," + inner);
      ItemsTail(items, acc);
      ItemsRoundTrip(items[1..], acc + [items[0]], rest);
    }
  }

  /** The remaining names of a distinct list are absent from what was read before them. */
  lemma MembersRest(ms: seq<Member>, acc: seq<Member>)
    requires ms != [] && DistinctKeys(ms)
    requires forall i :: 0 <= i < |ms| ==> WellFormed(ms[i].value) && !HasKey(acc, ms[i].key)
    ensures DistinctKeys(ms[1..])
    ensures forall i :: 0 <= i < |ms[1..]| ==> WellFormed(ms[1..][i].value) && !HasKey(acc + [ms[0]], ms[1..][i].key)
    ensures acc + [ms[0]] + ms[1..] == acc + ms
  {
    assert [ms[0]] + ms[1..] == ms;
    forall i | 0 <= i < |ms[1..]|
      ensures WellFormed(ms[1..][i].value) && !HasKey(acc + [ms[0]], ms[1..][i].key)
    {
      assert ms[1..][i] == ms[i + 1];
      forall w | 0 <= w < |acc + [ms[0]]|
        ensures (acc + [ms[0]])[w].key != ms[i + 1].key
      {
        if w < |acc| {
          assert (acc + [ms[0]])[w] == acc[w];
        }
      }
    }
  }

  lemma MemberText(m: Member, tail: string)
    ensures EncodeMember(m) + tail == "\"" + (Escape(m.key) + "\"" + (":" + (Encode(m.value) + tail)))
  {
    QuoteRegroup("\"", Escape(m.key), "\"", ":", Encode(m.value), tail);
  }

  lemma QuoteRegroup(a: string, b: string, c: string, d: string, e: string, t: string)
    ensures a + b + c + d + e + t == a + (b + c + (d + (e + t)))
  {
  }

  lemma MembersText(ms: seq<Member>, rest: string)
    requires ms != []
    ensures |ms| == 1 ==> EncodeMembers(ms) + "}" + rest == EncodeMember(ms[0]) + ("}" + rest)
    ensures |ms| > 1 ==> EncodeMembers(ms) + "}" + rest == EncodeMember(ms[0]) + ("," + (EncodeMembers(ms[1..]) + "}" + rest))
  {
    if |ms| == 1 {
      Regroup(EncodeMember(ms[0]), "}", rest);
    } else {
      Regroup5(EncodeMember(ms[0]), ",", EncodeMembers(ms[1..]), "}", rest);
    }
  }

  lemma {:induction false} MemberRoundTrip(m: Member, tail: string)
    requires WellFormed(m.value) && Delimited(tail)
    ensures ParseMember(EncodeMember(m) + tail) == Some((m, tail))
    decreases m, 0
  {
    var s := EncodeMember(m) + tail;
    var afterKey := ":" + (Encode(m.value) + tail);
    MemberText(m, tail);
    assert s[1..] == Escape(m.key) + "\"" + afterKey;
    StringRoundTrip(m.key, afterKey);
    assert afterKey[1..] == Encode(m.value) + tail;
    EncodeStart(m.value);
    ValueRoundTrip(m.value, tail);
    MemberStep(s, m.key, afterKey, m.value, tail);
  }

  lemma {:induction false} MembersRoundTrip(ms: seq<Member>, acc: seq<Member>, rest: string)
    requires ms != []
    requires DistinctKeys(ms)
    requires forall i :: 0 <= i < |ms| ==> WellFormed(ms[i].value) && !HasKey(acc, ms[i].key)
    ensures ParseMembers(EncodeMembers(ms) + "}" + rest, acc) == Some((JObj(acc + ms), rest))
    decreases ms, 1
  {
    var m := ms[0];
    var s := EncodeMembers(ms) + "}" + rest;
    MembersText(ms, rest);
    MembersStart(ms, "}" + rest);
    assert WellFormed(m.value) && !HasKey(acc, m.key);
    if |ms| == 1 {
      MemberRoundTrip(m, "}" + rest);
      MembersStep(s, acc, m, "}" + rest);
      assert ms == [m];
    } else {
      var inner := EncodeMembers(ms[1..]) + "}" + rest;
      MemberRoundTrip(m, "," + inner);
      MembersStep(s, acc, m, "," + inner);
      MembersRest(ms, acc);
      MembersRoundTrip(ms[1..], acc + [m], rest);
    }
  }

  /** `JSON.parse(JSON.stringify(j))` gives `j` back. */
  lemma DecodeEncode(j: Json)
    requires WellFormed(j)
    ensures Decode(Encode(j)) == Some(j)
  {
    EncodeStart(j);
    SkipSpaceNoop(Encode(j));
    assert Encode(j) + "" == Encode(j);
    ValueRoundTrip(j, "");
  }
}
