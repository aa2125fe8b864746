/** What an event says about a tool call, and when saying it raises: event texts are
    encoded as UTF-8, which half of a surrogate pair cannot be. */
module EventPayload {
  import opened Prelude

  /** Text as Python sees it: code points, surrogates included. */
  type Text = seq<nat>

  datatype Field = Field(key: Text, value: Json)

  datatype Json =
    | Null
    | Bool(b: bool)
    | Number(n: int)
    | String(text: Text)
    | Array(items: seq<Json>)
    | Object(fields: seq<Field>)

  /** What parsing the arguments of a call gives. The parser may also raise, on a number
      with too many digits for instance. */
  datatype Decoded = NotJson | NotObject | Fields(fields: seq<Field>) | ParserRaises

  /** The text rules of the runtime: redaction, bounding, the keys left out of an event,
      and the parser. */
  datatype TextRules = TextRules(
    redact: Text -> Text,
    bound: Text -> Text,
    leftOut: (Text, Json) -> bool,
    decode: Text -> Decoded,
    digest: Text -> Text)

  const MAX_EVENT_DEPTH: nat := 6
  const MAX_EVENT_ARRAY_ITEMS: nat := 64
  const MAX_EVENT_MAPPING_ITEMS: nat := 64

  predicate Surrogate(c: nat) {
    0xD800 <= c <= 0xDFFF
  }

  /** Half of a surrogate pair is a code point from U+D800 to U+DFFF, the limits included. */
  lemma SurrogateRange()
    ensures Surrogate(55296) && Surrogate(57343) && !Surrogate(55295) && !Surrogate(57344)
    ensures forall c :: Surrogate(c) ==> 55296 <= c <= 57343
  {
  }

  predicate Encodable(t: Text) {
    forall i | 0 <= i < |t| :: !Surrogate(t[i])
  }

  function CodePoints(s: string): Text {
    seq(|s|, i requires 0 <= i < |s| => s[i] as int)
  }

  // ----- which entries of a mapping are looked at -----

  predicate KeyLess(a: Text, b: Text) {
    if b == [] then false
    else if a == [] then true
    else a[0] < b[0] || (a[0] == b[0] && KeyLess(a[1..], b[1..]))
  }

  /** Keys are ordered by their first difference, a shorter one first. */
  lemma KeyOrder(a: Text, b: Text, x: nat, y: nat)
    ensures !KeyLess(a, []) && KeyLess([], [x] + a)
    ensures KeyLess([x] + a, [x] + b) == KeyLess(a, b)
    ensures x < y ==> KeyLess([x] + a, [y] + b) && !KeyLess([y] + b, [x] + a)
  {
    assert ([x] + a)[1..] == a && ([x] + b)[1..] == b;
  }

  lemma {:induction false} KeysCompare(a: Text, b: Text)
    ensures !(KeyLess(a, b) && KeyLess(b, a)) && (a == b <==> !KeyLess(a, b) && !KeyLess(b, a))
  {
    if a != [] && b != [] {
      KeysCompare(a[1..], b[1..]);
      assert a == [a[0]] + a[1..] && b == [b[0]] + b[1..];
    }
  }

  /** The entries before entry `i` in key order. */
  function Before(fields: seq<Field>, i: nat): set<nat>
    requires i < |fields|
  {
    set j: nat | j < |fields| && (KeyLess(fields[j].key, fields[i].key) || (fields[j].key == fields[i].key && j < i))
  }

  /** Among the first entries in key order, and not left out. */
  predicate Looked(r: TextRules, fields: seq<Field>, i: nat)
    requires i < |fields|
  {
    |Before(fields, i)| < MAX_EVENT_MAPPING_ITEMS && !r.leftOut(fields[i].key, fields[i].value)
  }

  /** Of two entries one comes before the other, by its key or else by its place; the first
      64 in this order are looked at, unless they are left out. */
  lemma EntriesInOrder(r: TextRules, fields: seq<Field>, i: nat, j: nat)
    requires i < |fields| && j < |fields|
    ensures i in Before(fields, j) ==> KeyLess(fields[i].key, fields[j].key) || fields[i].key == fields[j].key
    ensures i == j ==> i !in Before(fields, j)
    ensures i != j ==> (i in Before(fields, j) <==> j !in Before(fields, i))
    ensures fields[i].key == fields[j].key ==> (i in Before(fields, j) <==> i < j)
    ensures Looked(r, fields, i) <==> |Before(fields, i)| <= 63 && !r.leftOut(fields[i].key, fields[i].value)
  {
    KeysCompare(fields[i].key, fields[j].key);
  }

  // ----- sanitising -----

  /** The safe form of a value, or nothing when making it raises. */
  function Sanitize(r: TextRules, v: Json, depth: nat): Option<Json>
    decreases v, 1
  {
    if depth >= MAX_EVENT_DEPTH then Some(String(CodePoints("[truncated-depth]")))
    else
      match v
      case String(text) => if Encodable(r.redact(text)) then Some(String(r.bound(r.redact(text)))) else None
      case Array(items) =>
        var shown := SanitizeItems(r, items, Min(|items|, MAX_EVENT_ARRAY_ITEMS), depth);
        if shown.Some? then Some(Array(shown.value)) else None
      case Object(fields) =>
        var shown := SanitizeFields(r, fields, |fields|, depth);
        if shown.Some? then Some(Object(shown.value)) else None
      case _ => Some(v)
  }

  function SanitizeItems(r: TextRules, items: seq<Json>, n: nat, depth: nat): Option<seq<Json>>
    requires n <= |items|
    decreases items, 0, n
  {
    if n == 0 then Some([])
    else
      var earlier := SanitizeItems(r, items, n - 1, depth);
      if earlier.None? then None
      else
        match Sanitize(r, items[n - 1], depth + 1)
        case None => None
        case Some(v) => Some(earlier.value + [v])
  }

  function SanitizeFields(r: TextRules, fields: seq<Field>, n: nat, depth: nat): Option<seq<Field>>
    requires n <= |fields|
    decreases fields, 0, n
  {
    if n == 0 then Some([])
    else
      var earlier := SanitizeFields(r, fields, n - 1, depth);
      if earlier.None? || !Looked(r, fields, n - 1) then earlier
      else
        var field := fields[n - 1];
        match Sanitize(r, field.value, depth + 1)
        case None => None
        case Some(v) => Some(earlier.value + [Field(field.key, v)])
  }

  /** What is shown of an array: its first items, each made safe, in order. */
  lemma {:induction false} ItemsShown(r: TextRules, items: seq<Json>, n: nat, depth: nat)
    requires n <= |items| && SanitizeItems(r, items, n, depth).Some?
    ensures var shown := SanitizeItems(r, items, n, depth).value;
            |shown| == n && forall i :: 0 <= i < n ==> Sanitize(r, items[i], depth + 1) == Some(shown[i])
  {
    hide Sanitize;
    if n > 0 {
      ItemsShown(r, items, n - 1, depth);
    }
  }

  /** Entry `i` is shown as `f`. */
  predicate ShownAs(r: TextRules, fields: seq<Field>, i: nat, depth: nat, f: Field)
    requires i < |fields|
  {
    Looked(r, fields, i) && f.key == fields[i].key && Sanitize(r, fields[i].value, depth + 1) == Some(f.value)
  }

  /** What is shown of a mapping: the entries looked at, each made safe, and no other. */
  lemma {:induction false} FieldsShown(r: TextRules, fields: seq<Field>, n: nat, depth: nat)
    requires n <= |fields| && SanitizeFields(r, fields, n, depth).Some?
    ensures forall f :: f in SanitizeFields(r, fields, n, depth).value <==>
              exists i: nat | i < n :: ShownAs(r, fields, i, depth, f)
  {
    hide Sanitize, Looked;
    if n > 0 {
      FieldsShown(r, fields, n - 1, depth);
      var shown, earlier := SanitizeFields(r, fields, n, depth).value, SanitizeFields(r, fields, n - 1, depth).value;
      forall f ensures f in shown <==> f in earlier || ShownAs(r, fields, n - 1, depth, f) {
      }
      assert forall f, i: nat :: i < n && ShownAs(r, fields, i, depth, f) ==> i < n - 1 || i == n - 1;
    }
  }

  /** The texts looked at inside a value: within the depth, the first items of arrays, the
      entries of mappings that are not passed over. */
  ghost predicate Looks(r: TextRules, v: Json, depth: nat, t: Text) {
    && depth < MAX_EVENT_DEPTH
    && match v
       case String(text) => t == text
       case Array(items) => exists i | 0 <= i < Min(|items|, MAX_EVENT_ARRAY_ITEMS) :: Looks(r, items[i], depth + 1, t)
       case Object(fields) =>
         exists i: nat | i < |fields| :: Looked(r, fields, i) && (var f := fields[i]; Looks(r, f.value, depth + 1, t))
       case _ => false
  }

  /** Every text looked at can be encoded once it is redacted. */
  ghost predicate AllLooksEncode(r: TextRules, v: Json, depth: nat) {
    forall t :: Looks(r, v, depth, t) ==> Encodable(r.redact(t))
  }

  /** Sanitising raises exactly when a text it looks at cannot be encoded. */
  lemma {:induction false} SanitizeExactly(r: TextRules, v: Json, depth: nat)
    ensures Sanitize(r, v, depth).Some? <==> AllLooksEncode(r, v, depth)
    decreases v
  {
    hide Encodable, Looked;
    if depth < MAX_EVENT_DEPTH {
      match v
      case String(text) => assert Looks(r, v, depth, text);
      case Array(items) =>
        var n := Min(|items|, MAX_EVENT_ARRAY_ITEMS);
        ItemsExactly(r, items, n, depth);
        if AllLooksEncode(r, v, depth) {
          forall i | 0 <= i < n ensures Sanitize(r, items[i], depth + 1).Some? {
            forall t | Looks(r, items[i], depth + 1, t) ensures Encodable(r.redact(t)) {
              assert Looks(r, v, depth, t);
            }
            SanitizeExactly(r, items[i], depth + 1);
          }
        } else {
          var t :| Looks(r, v, depth, t) && !Encodable(r.redact(t));
          var i :| 0 <= i < n && Looks(r, items[i], depth + 1, t);
          SanitizeExactly(r, items[i], depth + 1);
        }
      case Object(fields) =>
        FieldsExactly(r, fields, |fields|, depth);
        if AllLooksEncode(r, v, depth) {
          forall i: nat | i < |fields| && Looked(r, fields, i) ensures Sanitize(r, fields[i].value, depth + 1).Some? {
            var f := fields[i];
            forall t | Looks(r, f.value, depth + 1, t) ensures Encodable(r.redact(t)) {
              assert Looks(r, v, depth, t);
            }
            SanitizeExactly(r, f.value, depth + 1);
          }
        } else {
          var t :| Looks(r, v, depth, t) && !Encodable(r.redact(t));
          var i: nat :| i < |fields| && Looked(r, fields, i) && Looks(r, fields[i].value, depth + 1, t);
          var f := fields[i];
          SanitizeExactly(r, f.value, depth + 1);
        }
      case _ =>
    }
  }

  lemma {:induction false} ItemsExactly(r: TextRules, items: seq<Json>, n: nat, depth: nat)
    requires n <= |items|
    ensures SanitizeItems(r, items, n, depth).Some? <==> forall i :: 0 <= i < n ==> Sanitize(r, items[i], depth + 1).Some?
  {
    hide Sanitize;
    if n > 0 {
      ItemsExactly(r, items, n - 1, depth);
    }
  }

  lemma {:induction false} FieldsExactly(r: TextRules, fields: seq<Field>, n: nat, depth: nat)
    requires n <= |fields|
    ensures SanitizeFields(r, fields, n, depth).Some? <==>
            forall i: nat :: i < n && Looked(r, fields, i) ==> Sanitize(r, fields[i].value, depth + 1).Some?
  {
    hide Sanitize, Looked;
    if n > 0 {
      FieldsExactly(r, fields, n - 1, depth);
    }
  }

  // ----- a safe value stays safe -----

  /** Redacting, bounding and digesting put only characters in that can be encoded. */
  ghost predicate Tame(r: TextRules) {
    && (forall t {:trigger r.redact(t)} {:trigger r.bound(t)} :: Encodable(t) ==> Encodable(r.redact(t)) && Encodable(r.bound(t)))
    && forall t {:trigger r.digest(t)} :: Encodable(r.digest(t))
  }

  ghost predicate Safe(v: Json) {
    match v
    case String(text) => Encodable(text)
    case Array(items) => forall i | 0 <= i < |items| :: Safe(items[i])
    case Object(fields) => forall i | 0 <= i < |fields| :: (var f := fields[i]; Safe(f.value))
    case _ => true
  }

  lemma {:induction false} SanitizedIsSafe(r: TextRules, v: Json, depth: nat)
    requires Tame(r) && Sanitize(r, v, depth).Some?
    ensures Safe(Sanitize(r, v, depth).value)
    decreases v, 1
  {
    hide Encodable, Looked, Tame;
    if depth >= MAX_EVENT_DEPTH {
      PlainText("[truncated-depth]");
    } else {
      match v
      case String(text) => assert Encodable(r.bound(r.redact(text))) by { Bounded(r, r.redact(text)); }
      case Array(items) => ItemsAreSafe(r, items, Min(|items|, MAX_EVENT_ARRAY_ITEMS), depth);
      case Object(fields) => FieldsAreSafe(r, fields, |fields|, depth);
      case _ =>
    }
  }

  lemma Bounded(r: TextRules, t: Text)
    requires Tame(r) && Encodable(t)
    ensures Encodable(r.bound(t)) && Encodable(r.redact(t))
  {
  }

  lemma PlainText(s: string)
    ensures Encodable(CodePoints(s))
  {
  }

  lemma {:induction false} ItemsAreSafe(r: TextRules, items: seq<Json>, n: nat, depth: nat)
    requires n <= |items| && Tame(r) && SanitizeItems(r, items, n, depth).Some?
    ensures forall i :: 0 <= i < |SanitizeItems(r, items, n, depth).value| ==> Safe(SanitizeItems(r, items, n, depth).value[i])
    decreases items, 0, n
  {
    hide Sanitize, Safe, Tame;
    if n > 0 {
      ItemsAreSafe(r, items, n - 1, depth);
      SanitizedIsSafe(r, items[n - 1], depth + 1);
    }
  }

  lemma {:induction false} FieldsAreSafe(r: TextRules, fields: seq<Field>, n: nat, depth: nat)
    requires n <= |fields| && Tame(r) && SanitizeFields(r, fields, n, depth).Some?
    ensures forall i :: 0 <= i < |SanitizeFields(r, fields, n, depth).value| ==>
                          Safe(SanitizeFields(r, fields, n, depth).value[i].value)
    decreases fields, 0, n
  {
    hide Sanitize, Safe, Tame, Looked;
    if n > 0 {
      FieldsAreSafe(r, fields, n - 1, depth);
      if Looked(r, fields, n - 1) {
        var field := fields[n - 1];
        SanitizedIsSafe(r, field.value, depth + 1);
      }
    }
  }

  lemma {:induction false} SafeLooksEncode(r: TextRules, v: Json, depth: nat, t: Text)
    requires Tame(r) && Safe(v) && Looks(r, v, depth, t)
    ensures Encodable(r.redact(t))
    decreases v
  {
    hide Encodable, Looked, Tame;
    match v
    case String(text) => Bounded(r, text);
    case Array(items) =>
      var i :| 0 <= i < |items| && Looks(r, items[i], depth + 1, t);
      SafeLooksEncode(r, items[i], depth + 1, t);
    case Object(fields) =>
      var i: nat :| i < |fields| && Looks(r, fields[i].value, depth + 1, t);
      var f := fields[i];
      SafeLooksEncode(r, f.value, depth + 1, t);
    case _ =>
  }

  // ----- the event of one tool call -----

  const CONTENT_TOOLS: set<string> := {"create_file", "replace_in_file"}
  const LISTED_TOOLS: set<string> := {"list_files", "search_text", "read_file", "run_command", "finish_task"}

  const ARGUMENTS: Text := CodePoints("arguments")
  const ARGUMENT_KEYS: Text := CodePoints("argument_keys")
  const CALL_ID: Text := CodePoints("tool_call_id")
  const TOOL_NAME: Text := CodePoints("tool_name")

  predicate ContentKey(key: Text) {
    key == CodePoints("content") || key == CodePoints("old_text") || key == CodePoints("new_text")
  }

  /** What is said of arguments that are not shown: their digest. */
  function DigestOnly(r: TextRules, raw: Text): Json {
    Object([Field(CodePoints("arguments_sha256"), String(r.digest(raw)))])
  }

  /** The arguments of a writing tool without the written text. */
  function WithoutContent(r: TextRules, fields: seq<Field>): seq<Field> {
    if fields == [] then []
    else
      var f := fields[|fields| - 1];
      WithoutContent(r, fields[..|fields| - 1]) +
      if !ContentKey(f.key) then [f]
      else if f.value.String? then [Field(f.key + CodePoints("_sha256"), String(r.digest(f.value.text)))]
      else []
  }

  /** The written text is encoded to be digested. */
  predicate ContentEncodes(fields: seq<Field>) {
    forall i | 0 <= i < |fields| ::
      ContentKey(fields[i].key) && fields[i].value.String? ==> Encodable(fields[i].value.text)
  }

  predicate KeyLeq(a: Text, b: Text) {
    !KeyLess(b, a)
  }

  lemma {:induction false} KeyLessTransitive(a: Text, b: Text, c: Text)
    requires KeyLeq(a, b) && KeyLeq(b, c)
    ensures KeyLeq(a, c)
  {
    if a != [] && b != [] && c != [] {
      if a[0] == b[0] == c[0] {
        KeyLessTransitive(a[1..], b[1..], c[1..]);
      }
    }
  }

  lemma KeysAreOrdered()
    ensures TotalPreorder(KeyLeq)
  {
    forall a, b ensures KeyLeq(a, b) || KeyLeq(b, a) {
      KeysCompare(a, b);
    }
    forall a, b, c | KeyLeq(a, b) && KeyLeq(b, c) ensures KeyLeq(a, c) {
      KeyLessTransitive(a, b, c);
    }
  }

  function KeysOf(fields: seq<Field>): seq<Text> {
    seq(|fields|, i requires 0 <= i < |fields| => fields[i].key)
  }

  /** The keys shown of a tool that has no rule of its own: the first in order. */
  function ShownKeys(fields: seq<Field>): seq<Text> {
    KeysAreOrdered();
    var keys := Sorted(KeysOf(fields), KeyLeq);
    keys[..Min(|keys|, MAX_EVENT_ARRAY_ITEMS)]
  }

  function Strings(keys: seq<Text>): seq<Json> {
    seq(|keys|, i requires 0 <= i < |keys| => String(keys[i]))
  }

  /** They are as many as there are up to 64, and no key that is not shown comes before one
      that is. */
  lemma FirstKeysShown(fields: seq<Field>)
    ensures var shown := ShownKeys(fields);
            && |shown| == (if |fields| < 64 then |fields| else 64)
            && exists rest :: multiset(KeysOf(fields)) == multiset(shown + rest) &&
                              forall a, b :: a in shown && b in rest ==> !KeyLess(b, a)
  {
    hide KeyLess;
    KeysAreOrdered();
    var keys := Sorted(KeysOf(fields), KeyLeq);
    var n := Min(|keys|, MAX_EVENT_ARRAY_ITEMS);
    SortedKeepsAll(KeysOf(fields), KeyLeq);
    assert keys == keys[..n] + keys[n..];
    forall a, b | a in keys[..n] && b in keys[n..] ensures !KeyLess(b, a) {
      assert KeyLeq(a, b);
    }
  }

  /** The summary of the arguments of a call, or nothing when making it raises. */
  function Summarize(r: TextRules, name: string, raw: Text): Option<Json> {
    if !Encodable(raw) then None
    else
      match r.decode(raw)
      case ParserRaises => None
      case NotJson => Some(DigestOnly(r, raw))
      case NotObject => Some(DigestOnly(r, raw))
      case Fields(fields) =>
        if name in CONTENT_TOOLS then
          if ContentEncodes(fields) then Sanitize(r, Object(WithoutContent(r, fields)), 0) else None
        else if name in LISTED_TOOLS then Sanitize(r, Object(fields), 0)
        else Some(Object([Field(ARGUMENT_KEYS, Array(Strings(ShownKeys(fields))))]))
  }

  /** The payload of the event that announces a call; it is sanitised once more. */
  function CallPayload(r: TextRules, id: Text, name: string, raw: Text): Option<Json> {
    match Summarize(r, name, raw)
    case None => None
    case Some(arguments) => Sanitize(r, Payload(id, name, arguments), 0)
  }

  /** The entries of that payload, and the list of keys, are never passed over. */
  ghost predicate ShowsCalls(r: TextRules) {
    forall v ::
      !r.leftOut(ARGUMENTS, v) && !r.leftOut(CALL_ID, v) && !r.leftOut(TOOL_NAME, v) && !r.leftOut(ARGUMENT_KEYS, v)
  }

  lemma FewEntries(r: TextRules, fields: seq<Field>, i: nat)
    requires i < |fields| <= 3
    ensures Looked(r, fields, i) <==> !r.leftOut(fields[i].key, fields[i].value)
  {
    assert Before(fields, i) <= {0, 1, 2};
    FewNumbers(Before(fields, i));
  }

  lemma FewNumbers(s: set<nat>)
    requires s <= {0, 1, 2}
    ensures |s| <= 3
  {
    var all: set<nat> := {0, 1, 2};
    assert all == s + (all - s);
  }

  /** What is shown of a mapping can be encoded: of a writing tool the written texts, which
      are digested, and what is looked at of the rest; of a tool with a rule what is looked
      at; of any other tool the first keys. */
  ghost predicate ShownEncodes(r: TextRules, name: string, fields: seq<Field>) {
    if name == "create_file" || name == "replace_in_file" then
      && (forall f :: f in fields && Written(f) ==> Encodable(f.value.text))
      && AllLooksEncode(r, Object(WithoutContent(r, fields)), 0)
    else if name in LISTED_TOOLS then AllLooksEncode(r, Object(fields), 0)
    else KeysEncode(r, fields)
  }

  ghost predicate KeysEncode(r: TextRules, fields: seq<Field>) {
    forall key :: key in ShownKeys(fields) ==> Encodable(r.redact(key))
  }

  predicate BodyKey(key: Text) {
    key in {CodePoints("content"), CodePoints("old_text"), CodePoints("new_text")}
  }

  /** The text a writing tool is given to write. */
  predicate Written(f: Field) {
    BodyKey(f.key) && f.value.String?
  }

  /** Entry `g` of the arguments is told as `f`: as it is, unless it is a body to be written;
      then by the digest of its text. */
  predicate ToldAs(r: TextRules, g: Field, f: Field) {
    if BodyKey(g.key) then
      g.value.String? && f == Field(g.key + CodePoints("_sha256"), String(r.digest(g.value.text)))
    else f == g
  }

  /** No body reaches an event: what is told of the arguments of a writing tool. */
  lemma {:induction false} BodiesAreDigested(r: TextRules, fields: seq<Field>)
    ensures forall f :: f in WithoutContent(r, fields) <==> exists g :: g in fields && ToldAs(r, g, f)
  {
    if fields != [] {
      var init, last := fields[..|fields| - 1], fields[|fields| - 1];
      BodiesAreDigested(r, init);
      assert fields == init + [last];
      forall f ensures f in WithoutContent(r, fields) <==> f in WithoutContent(r, init) || ToldAs(r, last, f) {
      }
    }
  }

  lemma BodiesEncode(fields: seq<Field>)
    ensures ContentEncodes(fields) <==> forall f :: f in fields && Written(f) ==> Encodable(f.value.text)
  {
    hide Encodable;
    if ContentEncodes(fields) {
      forall f | f in fields && Written(f) ensures Encodable(f.value.text) {
        var i :| 0 <= i < |fields| && fields[i] == f;
      }
    } else {
      var i :| 0 <= i < |fields| && ContentKey(fields[i].key) && fields[i].value.String? && !Encodable(fields[i].value.text);
      assert fields[i] in fields && Written(fields[i]);
    }
  }

  lemma SafeEncodes(r: TextRules, v: Json, depth: nat)
    requires Tame(r) && Safe(v)
    ensures AllLooksEncode(r, v, depth)
  {
    hide Encodable, Looks, Tame, Safe;
    forall t | Looks(r, v, depth, t) ensures Encodable(r.redact(t)) {
      SafeLooksEncode(r, v, depth, t);
    }
  }

  lemma DigestIsSafe(r: TextRules, raw: Text)
    requires Tame(r)
    ensures Safe(DigestOnly(r, raw))
  {
    hide Encodable;
  }

  /** What a summary that was made looks at can be encoded, except keys that are shown. */
  lemma SummaryLooks(r: TextRules, name: string, raw: Text)
    requires Tame(r) && ShowsCalls(r) && Summarize(r, name, raw).Some?
    ensures var fieldsShown := r.decode(raw).Fields? && name !in CONTENT_TOOLS && name !in LISTED_TOOLS;
            AllLooksEncode(r, Summarize(r, name, raw).value, 1) <==> (fieldsShown ==> KeysEncode(r, r.decode(raw).fields))
  {
    hide Encodable, Looks, Tame, Safe, Sanitize, ContentEncodes, ShownKeys, WithoutContent, AllLooksEncode, KeysEncode, DigestOnly;
    var v := Summarize(r, name, raw).value;
    match r.decode(raw)
    case NotJson => DigestIsSafe(r, raw); SafeEncodes(r, v, 1);
    case NotObject => DigestIsSafe(r, raw); SafeEncodes(r, v, 1);
    case Fields(fields) =>
      if name in CONTENT_TOOLS {
        SanitizedIsSafe(r, Object(WithoutContent(r, fields)), 0);
        SafeEncodes(r, v, 1);
      } else if name in LISTED_TOOLS {
        SanitizedIsSafe(r, Object(fields), 0);
        SafeEncodes(r, v, 1);
      } else {
        KeysLook(r, fields);
      }
  }

  lemma KeysLook(r: TextRules, fields: seq<Field>)
    requires ShowsCalls(r)
    ensures AllLooksEncode(r, Object([Field(ARGUMENT_KEYS, Array(Strings(ShownKeys(fields))))]), 1) <==> KeysEncode(r, fields)
  {
    hide Encodable, Before, Looked, ShownKeys;
    FirstKeysShown(fields);
    var keys := ShownKeys(fields);
    var entries := [Field(ARGUMENT_KEYS, Array(Strings(keys)))];
    FewEntries(r, entries, 0);
    forall t ensures Looks(r, Object(entries), 1, t) <==> t in keys {
      StringsLook(r, keys, t);
      assert Looks(r, Object(entries), 1, t) <==> Looks(r, entries[0].value, 2, t);
    }
  }

  lemma StringsLook(r: TextRules, keys: seq<Text>, t: Text)
    requires |keys| <= 64
    ensures Looks(r, Array(Strings(keys)), 2, t) <==> t in keys
  {
    var items := Strings(keys);
    forall i | 0 <= i < |items| ensures Looks(r, items[i], 3, t) <==> keys[i] == t {
    }
  }

  /** Announcing a call raises exactly when the arguments or the identifier cannot be
      encoded, the parser raises, or the arguments are a mapping of which something shown
      cannot be encoded. */
  lemma CallPayloadExactly(r: TextRules, id: Text, name: string, raw: Text)
    requires Tame(r) && ShowsCalls(r)
    ensures CallPayload(r, id, name, raw).Some? <==>
            && Encodable(raw) && Encodable(r.redact(id)) && r.decode(raw) != ParserRaises
            && (r.decode(raw).Fields? ==> ShownEncodes(r, name, r.decode(raw).fields))
  {
    hide Encodable, Sanitize, Tame, Looks, ContentEncodes, ShownKeys, WithoutContent, AllLooksEncode, KeysEncode, DigestOnly;
    if r.decode(raw).Fields? {
      var fields := r.decode(raw).fields;
      BodiesEncode(fields);
      SanitizeExactly(r, Object(WithoutContent(r, fields)), 0);
      SanitizeExactly(r, Object(fields), 0);
    }
    if Summarize(r, name, raw).Some? {
      var arguments := Summarize(r, name, raw).value;
      SummaryLooks(r, name, raw);
      PayloadLooks(r, id, name, arguments);
      SanitizeExactly(r, Payload(id, name, arguments), 0);
    }
  }

  function Payload(id: Text, name: string, arguments: Json): Json {
    Object([Field(ARGUMENTS, arguments), Field(CALL_ID, String(id)), Field(TOOL_NAME, String(CodePoints(name)))])
  }

  lemma PayloadLooks(r: TextRules, id: Text, name: string, arguments: Json)
    requires Tame(r) && ShowsCalls(r)
    ensures AllLooksEncode(r, Payload(id, name, arguments), 0) <==>
            Encodable(r.redact(id)) && AllLooksEncode(r, arguments, 1)
  {
    hide Encodable, Looked, Tame;
    var v := Payload(id, name, arguments);
    var fields := v.fields;
    FewEntries(r, fields, 0);
    FewEntries(r, fields, 1);
    FewEntries(r, fields, 2);
    PlainText(name);
    Bounded(r, CodePoints(name));
    forall t ensures Looks(r, v, 0, t) <==> Looks(r, arguments, 1, t) || t == id || t == CodePoints(name) {
      assert Looks(r, fields[0].value, 1, t) == Looks(r, arguments, 1, t);
      assert Looks(r, fields[1].value, 1, t) <==> t == id;
      assert Looks(r, fields[2].value, 1, t) <==> t == CodePoints(name);
      PayloadEntries(r, fields, t);
    }
  }

  lemma PayloadEntries(r: TextRules, fields: seq<Field>, t: Text)
    requires |fields| == 3 && Looked(r, fields, 0) && Looked(r, fields, 1) && Looked(r, fields, 2)
    ensures Looks(r, Object(fields), 0, t) <==> exists i :: 0 <= i < 3 && Looks(r, fields[i].value, 1, t)
  {
    hide Looked;
    if i :| 0 <= i < 3 && Looks(r, fields[i].value, 1, t) {
      assert Looked(r, fields, i);
    }
  }

  /** `{"argv": ["\ud800"]}`, plain ASCII text, cannot be announced. */
  lemma SurrogateArgument(r: TextRules, id: Text, raw: Text)
    requires Tame(r) && ShowsCalls(r)
    requires r.decode(raw) == Fields([Field(CodePoints("argv"), Array([String([0xD800])]))])
    requires !r.leftOut(CodePoints("argv"), Array([String([0xD800])])) && r.redact([0xD800]) == [0xD800]
    ensures CallPayload(r, id, "run_command", raw) == None
  {
    var fields := [Field(CodePoints("argv"), Array([String([0xD800])]))];
    var v := Object(fields);
    FewEntries(r, fields, 0);
    assert !Encodable([0xD800]) by { assert Surrogate([0xD800 as nat][0]); }
    assert Looks(r, v, 0, [0xD800]) by {
      var items := fields[0].value.items;
      assert Looks(r, items[0], 2, [0xD800]);
      assert Looks(r, fields[0].value, 1, [0xD800]);
    }
    hide Looks;
    CallPayloadExactly(r, id, "run_command", raw);
  }
}
