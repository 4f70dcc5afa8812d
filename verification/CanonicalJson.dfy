/** The canonical serializer behind audit hashes: injective up to the order of object keys. */
module CanonicalJson {
  import opened Numerals

  /** A JSON value as JavaScript holds it: an object keeps its keys in insertion order. */
  datatype Json =
    | Null
    | Bool(b: bool)
    | Num(n: int)
    | Str(s: JsString)
    | Arr(items: seq<Json>)
    | Obj(fields: seq<Field>)
  datatype Field = Field(key: JsString, value: Json)

  const QUOTE: CodeUnit := 34
  const COMMA: CodeUnit := 44
  const COLON: CodeUnit := 58
  const LBRACKET: CodeUnit := 91
  const BACKSLASH: CodeUnit := 92
  const RBRACKET: CodeUnit := 93
  const LBRACE: CodeUnit := 123
  const RBRACE: CodeUnit := 125

  predicate DistinctKeys(fields: seq<Field>) {
    forall i, j :: 0 <= i < j < |fields| ==> fields[i].key != fields[j].key
  }

  /** Object keys are distinct at every depth. */
  predicate WellFormed(v: Json) {
    match v
    case Arr(items) => forall i :: 0 <= i < |items| ==> WellFormed(items[i])
    case Obj(fields) => DistinctKeys(fields) && forall i :: 0 <= i < |fields| ==> WellFormed(fields[i].value)
    case _ => true
  }

  // ----- strings -----

  predicate IsHigh(c: CodeUnit) {
    0xD800 <= c <= 0xDBFF
  }

  predicate IsLow(c: CodeUnit) {
    0xDC00 <= c <= 0xDFFF
  }

  function HexDigit(d: nat): CodeUnit
    requires d < 16
  {
    (if d < 10 then 48 + d else 87 + d) as CodeUnit
  }

  function UnicodeEscape(c: CodeUnit): JsString {
    var n := c as int;
    [BACKSLASH, 117, HexDigit(n / 4096), HexDigit(n / 256 % 16), HexDigit(n / 16 % 16), HexDigit(n % 16)]
  }

  /** The letter of a two-character escape, or 0. */
  function ShortEscape(c: CodeUnit): CodeUnit {
    if c == 8 then 98 else if c == 9 then 116 else if c == 10 then 110 else if c == 12 then 102
    else if c == 13 then 114 else if c == QUOTE then QUOTE else if c == BACKSLASH then BACKSLASH else 0
  }

  /** The first unit and the next one are a surrogate pair. */
  predicate OpensPair(s: JsString, paired: bool) {
    !paired && |s| > 1 && IsHigh(s[0]) && IsLow(s[1])
  }

  /** The text for the first unit; `paired` says that it is the second half of a surrogate pair. */
  function Token(s: JsString, paired: bool): JsString
    requires |s| > 0
  {
    var c := s[0];
    if paired || OpensPair(s, paired) then [c]
    else if ShortEscape(c) != 0 then [BACKSLASH, ShortEscape(c)]
    else if c < 32 || IsHigh(c) || IsLow(c) then UnicodeEscape(c)
    else [c]
  }

  function Escape(s: JsString, paired: bool): JsString {
    if |s| == 0 then [] else Token(s, paired) + Escape(s[1..], OpensPair(s, paired))
  }

  /** `JSON.stringify` of a string. */
  function QuoteString(s: JsString): JsString {
    [QUOTE] + Escape(s, false) + [QUOTE]
  }

  // ----- keys in sorted order -----

  /** `Array.prototype.sort` compares strings by code unit. */
  predicate Less(a: JsString, b: JsString) {
    if |b| == 0 then false
    else if |a| == 0 then true
    else if a[0] != b[0] then a[0] < b[0]
    else Less(a[1..], b[1..])
  }

  function Insert(key: JsString, keys: seq<JsString>): seq<JsString> {
    if |keys| == 0 || Less(key, keys[0]) then [key] + keys else [keys[0]] + Insert(key, keys[1..])
  }

  function SortedKeys(fields: seq<Field>): seq<JsString> {
    if |fields| == 0 then [] else Insert(fields[|fields| - 1].key, SortedKeys(fields[..|fields| - 1]))
  }

  predicate HasKey(fields: seq<Field>, key: JsString) {
    exists i :: 0 <= i < |fields| && fields[i].key == key
  }

  function IndexOf(fields: seq<Field>, key: JsString): (i: nat)
    requires HasKey(fields, key)
    ensures i < |fields| && fields[i].key == key
  {
    if fields[0].key == key then 0
    else
      assert HasKey(fields[1..], key) by {
        var j :| 0 <= j < |fields| && fields[j].key == key;
        assert fields[1..][j - 1].key == key;
      }
      1 + IndexOf(fields[1..], key)
  }

  /** `object[key]`. */
  function Lookup(fields: seq<Field>, key: JsString): Json
    requires HasKey(fields, key)
  {
    fields[IndexOf(fields, key)].value
  }

  // ----- stableStringify -----

  function Separator(k: nat): JsString {
    if k == 0 then [] else [COMMA]
  }

  function Stringify(v: Json): JsString
    decreases v, 0
  {
    match v
    case Null => [110, 117, 108, 108]
    case Bool(b) => if b then [116, 114, 117, 101] else [102, 97, 108, 115, 101]
    case Num(n) => ToDecimal(n)
    case Str(s) => QuoteString(s)
    case Arr(items) => [LBRACKET] + Items(items, 0) + [RBRACKET]
    case Obj(fields) =>
      KeysExist(fields);
      [LBRACE] + Members(fields, SortedKeys(fields), 0) + [RBRACE]
  }

  /** Items from index `k` on, comma-separated. */
  function Items(items: seq<Json>, k: nat): JsString
    requires k <= |items|
    decreases items, |items| - k
  {
    if k == |items| then [] else Separator(k) + Stringify(items[k]) + Items(items, k + 1)
  }

  /** Members whose keys are `keys[k..]`, comma-separated. */
  function Members(fields: seq<Field>, keys: seq<JsString>, k: nat): JsString
    requires k <= |keys| && forall i :: 0 <= i < |keys| ==> HasKey(fields, keys[i])
    decreases fields, |keys| - k
  {
    if k == |keys| then []
    else Separator(k) + QuoteString(keys[k]) + [COLON] + Stringify(Lookup(fields, keys[k])) + Members(fields, keys, k + 1)
  }

  lemma {:induction false} InsertKeeps(key: JsString, keys: seq<JsString>)
    ensures forall x :: x in Insert(key, keys) <==> x == key || x in keys
  {
    if |keys| > 0 && !Less(key, keys[0]) {
      InsertKeeps(key, keys[1..]);
    }
  }

  lemma {:induction false} SortedKeysExact(fields: seq<Field>)
    ensures forall x :: x in SortedKeys(fields) <==> HasKey(fields, x)
  {
    if |fields| > 0 {
      var front, last := fields[..|fields| - 1], fields[|fields| - 1];
      SortedKeysExact(front);
      InsertKeeps(last.key, SortedKeys(front));
      forall x
        ensures HasKey(fields, x) <==> x == last.key || HasKey(front, x)
      {
        if HasKey(front, x) {
          var i :| 0 <= i < |front| && front[i].key == x;
          assert fields[i].key == x;
        }
        if HasKey(fields, x) && x != last.key {
          var i :| 0 <= i < |fields| && fields[i].key == x;
          assert front[i].key == x;
        }
      }
    }
  }

  lemma KeysExist(fields: seq<Field>)
    ensures forall i :: 0 <= i < |SortedKeys(fields)| ==> HasKey(fields, SortedKeys(fields)[i])
  {
    SortedKeysExact(fields);
  }
}
