/** `stableStringify` of two values is the same text exactly when the values agree up to key order. */
module CanonicalJsonProofs {
  import opened Options
  import opened Numerals
  import opened CanonicalJson

  /** Equality of JSON values that does not look at the order of object keys. */
  ghost predicate SameValue(v: Json, w: Json) {
    match (v, w)
    case (Arr(a), Arr(b)) => |a| == |b| && forall i :: 0 <= i < |a| ==> SameValue(a[i], b[i])
    case (Obj(f), Obj(g)) =>
      && (forall key :: HasKey(f, key) <==> HasKey(g, key))
      && forall i :: 0 <= i < |f| && HasKey(g, f[i].key) ==> SameValue(f[i].value, Lookup(g, f[i].key))
    case _ => v == w
  }

  // ----- strings: a reader for section 7 of RFC 8259 undoes the quoting -----

  function HexValue(c: CodeUnit): (r: Option<nat>)
    ensures r.Some? ==> r.value < 16
  {
    if 48 <= c <= 57 then Some(c as int - 48)
    else if 97 <= c <= 102 then Some(c as int - 87)
    else if 65 <= c <= 70 then Some(c as int - 55)
    else None
  }

  function Unescaped(letter: CodeUnit): Option<CodeUnit> {
    if letter == QUOTE || letter == BACKSLASH || letter == 47 then Some(letter)
    else if letter == 98 then Some(8)
    else if letter == 102 then Some(12)
    else if letter == 110 then Some(10)
    else if letter == 114 then Some(13)
    else if letter == 116 then Some(9)
    else None
  }

  /** The unit that a text starts with, and how many characters spell it. */
  function ReadUnit(t: JsString): (r: Option<(CodeUnit, nat)>)
    requires |t| > 0
    ensures r.Some? ==> 1 <= r.value.1 <= |t|
  {
    if t[0] != BACKSLASH then
      if t[0] < 32 then None else Some((t[0], 1))
    else if |t| < 2 then None
    else if t[1] != 117 then
      match Unescaped(t[1])
      case None => None
      case Some(c) => Some((c, 2))
    else if |t| < 6 then None
    else
      match (HexValue(t[2]), HexValue(t[3]), HexValue(t[4]), HexValue(t[5]))
      case (Some(a), Some(b), Some(c), Some(d)) => Some(((4096 * a + 256 * b + 16 * c + d) as CodeUnit, 6))
      case _ => None
  }

  /** The units of a string up to its closing quote, and the text after the quote. */
  function ReadBody(t: JsString): (r: Option<(JsString, JsString)>)
    ensures r.Some? ==> |r.value.1| < |t|
  {
    if |t| == 0 then None
    else if t[0] == QUOTE then Some(([], t[1..]))
    else
      match ReadUnit(t)
      case None => None
      case Some((c, n)) => Prepend(c, ReadBody(t[n..]))
  }

  function Prepend(c: CodeUnit, r: Option<(JsString, JsString)>): Option<(JsString, JsString)> {
    match r
    case None => None
    case Some((s, rest)) => Some(([c] + s, rest))
  }

  /** What a text of characters from the basic plane is in code units. */
  function Units(text: string): (s: JsString)
    ensures |s| == |text| && forall i :: 0 <= i < |s| ==> s[i] as int == text[i] as int % 0x10000
  {
    if |text| == 0 then [] else Units(text[..|text| - 1]) + [(text[|text| - 1] as int % 0x10000) as CodeUnit]
  }

  lemma HexDigits(d: nat)
    requires d < 16
    ensures HexDigit(d) as int == "0123456789abcdef"[d] as int
  {
  }

  /** How each unit that stands alone is written: seven short escapes, `\\u00xx` for other controls, itself otherwise. */
  lemma EscapesAsWritten(c: CodeUnit)
    ensures var t := Escape([c], false);
            && (c == 8 ==> t == Units("\\b")) && (c == 9 ==> t == Units("\\t")) && (c == 10 ==> t == Units("\\n"))
            && (c == 12 ==> t == Units("\\f")) && (c == 13 ==> t == Units("\\r"))
            && (c == 34 ==> t == Units("\\\"")) && (c == 92 ==> t == Units("\\\\"))
            && (c < 32 && c !in [8, 9, 10, 12, 13] ==>
                  |t| == 6 && t[..4] == Units("\\u00") && t[4] == HexDigit(c as int / 16) && t[5] == HexDigit(c as int % 16))
            && (32 <= c < 0xD800 && c != 34 && c != 92 ==> t == [c])
  {
    assert Escape([c], false) == Token([c], false) + [];
    hide Escape;
  }

  lemma HexDigitRoundTrip(d: nat)
    requires d < 16
    ensures HexValue(HexDigit(d)) == Some(d)
  {
  }

  lemma HexPlaces(n: nat)
    requires n < 0x10000
    ensures n / 4096 < 16
    ensures 4096 * (n / 4096) + 256 * (n / 256 % 16) + 16 * (n / 16 % 16) + n % 16 == n
  {
  }

  lemma HexRoundTrip(c: CodeUnit, tail: JsString)
    ensures ReadUnit(UnicodeEscape(c) + tail) == Some((c, 6))
  {
    var n := c as int;
    HexPlaces(n);
    HexDigitRoundTrip(n / 4096);
    HexDigitRoundTrip(n / 256 % 16);
    HexDigitRoundTrip(n / 16 % 16);
    HexDigitRoundTrip(n % 16);
    hide HexDigit, HexValue;
  }

  /** Reading the token of one unit gives back the unit and stops at the token's end. */
  lemma ReadToken(s: JsString, paired: bool, tail: JsString)
    requires |s| > 0 && (paired ==> IsLow(s[0]))
    ensures Token(s, paired)[0] != QUOTE
    ensures ReadUnit(Token(s, paired) + tail) == Some((s[0], |Token(s, paired)|))
  {
    HexRoundTrip(s[0], tail);
    hide HexDigit, HexValue;
  }

  lemma {:induction false} EscapeRoundTrip(s: JsString, paired: bool, rest: JsString)
    requires paired ==> |s| > 0 && IsLow(s[0])
    ensures ReadBody(Escape(s, paired) + ([QUOTE] + rest)) == Some((s, rest))
  {
    hide ReadBody, ReadUnit, Token;
    if |s| == 0 {
      assert [] + ([QUOTE] + rest) == [QUOTE] + rest;
      BodyEnds(rest);
    } else {
      var token, tail := Token(s, paired), Escape(s[1..], OpensPair(s, paired)) + ([QUOTE] + rest);
      EscapeRoundTrip(s[1..], OpensPair(s, paired), rest);
      ReadToken(s, paired, tail);
      assert Escape(s, paired) + ([QUOTE] + rest) == token + tail;
      BodyContinues(token, s[0], tail);
      assert s == [s[0]] + s[1..];
    }
  }

  lemma BodyEnds(rest: JsString)
    ensures ReadBody([QUOTE] + rest) == Some(([], rest))
  {
    assert ([QUOTE] + rest)[1..] == rest;
  }

  lemma BodyContinues(token: JsString, c: CodeUnit, tail: JsString)
    requires |token| > 0 && token[0] != QUOTE && ReadUnit(token + tail) == Some((c, |token|))
    ensures ReadBody(token + tail) == Prepend(c, ReadBody(tail))
  {
    hide ReadUnit;
    assert (token + tail)[|token|..] == tail;
  }

  lemma QuoteReads(a: JsString, r: JsString)
    ensures |QuoteString(a) + r| > 0 && ReadBody((QuoteString(a) + r)[1..]) == Some((a, r))
  {
    hide ReadBody, Escape;
    EscapeRoundTrip(a, false, r);
    assert (QuoteString(a) + r)[1..] == Escape(a, false) + ([QUOTE] + r);
  }

  /** No text continues two different quoted strings. */
  lemma QuotePrefixFree(a: JsString, b: JsString, r: JsString, q: JsString)
    requires QuoteString(a) + r == QuoteString(b) + q
    ensures a == b && r == q
  {
    hide ReadBody, QuoteString;
    QuoteReads(a, r);
    QuoteReads(b, q);
  }

  // ----- numbers -----

  predicate NoDigitFirst(r: JsString) {
    |r| == 0 || !IsDigit(r[0])
  }

  lemma DigitsPrefixFree(a: JsString, b: JsString, r: JsString, q: JsString)
    requires AllDigits(a) && AllDigits(b) && NoDigitFirst(r) && NoDigitFirst(q)
    requires a + r == b + q
    ensures a == b && r == q
  {
    var x := a + r;
    assert forall i :: 0 <= i < |a| ==> IsDigit(x[i]);
    assert |a| < |x| ==> !IsDigit(x[|a|]);
    assert x == b + q && forall i :: 0 <= i < |b| ==> IsDigit(x[i]);
    assert |b| < |x| ==> !IsDigit(x[|b|]);
    assert (a + r)[..|a|] == a && (b + q)[..|b|] == b;
    assert (a + r)[|a|..] == r && (b + q)[|b|..] == q;
  }

  lemma SignedPrefixFree(n: int, m: int, r: JsString, q: JsString)
    requires NoDigitFirst(r) && NoDigitFirst(q) && ToDecimal(n) + r == ToDecimal(m) + q
    ensures n == m && r == q
  {
    hide ToDigits;
    SignShows(n, r);
    SignShows(m, q);
    if n < 0 {
      MinusMoves(n, r);
      MinusMoves(m, q);
      CancelPrefix([MINUS], ToDigits(-n) + r, ToDigits(-m) + q);
      UnsignedPrefixFree(-n, -m, r, q);
    } else {
      UnsignedPrefixFree(n, m, r, q);
    }
  }

  lemma SignShows(n: int, r: JsString)
    ensures |ToDecimal(n) + r| > 0 && ((ToDecimal(n) + r)[0] == MINUS <==> n < 0)
  {
    assert (ToDecimal(n) + r)[0] == ToDecimal(n)[0];
    if n >= 0 {
      assert IsDigit(ToDigits(n)[0]);
    }
    hide ToDigits;
  }

  lemma MinusMoves(n: int, r: JsString)
    requires n < 0
    ensures ToDecimal(n) + r == [MINUS] + (ToDigits(-n) + r)
  {
    hide ToDigits;
  }

  lemma UnsignedPrefixFree(n: nat, m: nat, r: JsString, q: JsString)
    requires NoDigitFirst(r) && NoDigitFirst(q) && ToDigits(n) + r == ToDigits(m) + q
    ensures n == m && r == q
  {
    hide ToDigits, FromDigits;
    DigitsPrefixFree(ToDigits(n), ToDigits(m), r, q);
    FromTo(n);
    FromTo(m);
  }

  // ----- values: equal text means equal value -----

  /** What may follow a value inside a document. */
  predicate Stops(r: JsString) {
    |r| == 0 || r[0] == COMMA || r[0] == RBRACKET || r[0] == RBRACE
  }

  /** The constructor shows in the first character. */
  function Kind(c: CodeUnit): nat {
    if c == 110 then 0 else if c == 116 then 1 else if c == 102 then 2 else if c == QUOTE then 3
    else if c == LBRACKET then 4 else if c == LBRACE then 5 else 6
  }

  function KindOf(v: Json): nat {
    match v
    case Null => 0
    case Bool(b) => if b then 1 else 2
    case Str(_) => 3
    case Arr(_) => 4
    case Obj(_) => 5
    case Num(_) => 6
  }

  lemma FirstCharacter(v: Json)
    ensures |Stringify(v)| > 0
    ensures Kind(Stringify(v)[0]) == KindOf(v)
    ensures Stringify(v)[0] != COMMA && Stringify(v)[0] != RBRACKET && Stringify(v)[0] != RBRACE
  {
  }

  lemma {:induction false} SameTextSameValue(v: Json, w: Json, r: JsString, q: JsString)
    requires WellFormed(v) && WellFormed(w) && Stops(r) && Stops(q)
    requires Stringify(v) + r == Stringify(w) + q
    ensures SameValue(v, w) && r == q
    decreases v, 2
  {
    FirstCharacter(v);
    FirstCharacter(w);
    assert (Stringify(v) + r)[0] == Stringify(v)[0] && (Stringify(w) + q)[0] == Stringify(w)[0];
    assert KindOf(v) == KindOf(w);
    match v
    case Null => assert (Stringify(v) + r)[4..] == r && (Stringify(w) + q)[4..] == q;
    case Bool(b) =>
      var n := |Stringify(v)|;
      assert (Stringify(v) + r)[n..] == r && (Stringify(w) + q)[n..] == q;
    case Num(n) => SignedPrefixFree(n, w.n, r, q);
    case Str(s) => QuotePrefixFree(s, w.s, r, q);
    case Arr(_) => SameArrays(v, w, r, q);
    case Obj(_) => SameObjects(v, w, r, q);
  }

  /** What is left of an array's text from item `k` on, with the text after the array. */
  function ItemsText(a: seq<Json>, k: nat, r: JsString): JsString
    requires k <= |a|
  {
    Items(a, k) + ([RBRACKET] + r)
  }

  lemma ItemsTextUnfolds(a: seq<Json>, k: nat, r: JsString)
    requires k <= |a|
    ensures k == |a| ==> ItemsText(a, k, r) == [RBRACKET] + r
    ensures k < |a| ==> ItemsText(a, k, r) == Separator(k) + (Stringify(a[k]) + ItemsText(a, k + 1, r))
    ensures |ItemsText(a, k, r)| > 0 && (k < |a| ==> ItemsText(a, k, r)[0] != RBRACKET)
    ensures k > 0 ==> Stops(ItemsText(a, k, r))
  {
    hide Stringify;
    if k < |a| {
      FirstCharacter(a[k]);
      Reassociate(Separator(k), Stringify(a[k]), Items(a, k + 1), [RBRACKET] + r);
      hide ItemsText, Items;
      StartsWith(k, Stringify(a[k]), ItemsText(a, k + 1, r));
    }
  }

  lemma Reassociate(a: JsString, b: JsString, c: JsString, d: JsString)
    ensures (a + b + c) + d == a + (b + (c + d))
  {
  }

  lemma StartsWith(k: nat, x: JsString, y: JsString)
    requires |x| > 0
    ensures |Separator(k) + (x + y)| > 0 && (Separator(k) + (x + y))[0] == if k == 0 then x[0] else COMMA
  {
    assert (x + y)[0] == x[0];
  }

  lemma {:induction false} SameArrays(v: Json, w: Json, r: JsString, q: JsString)
    requires WellFormed(v) && WellFormed(w) && v.Arr? && w.Arr?
    requires Stringify(v) + r == Stringify(w) + q
    ensures SameValue(v, w) && r == q
    decreases v, 1
  {
    assert (Stringify(v) + r)[1..] == ItemsText(v.items, 0, r);
    assert (Stringify(w) + q)[1..] == ItemsText(w.items, 0, q);
    hide Stringify, ItemsText;
    SameItems(v.items, w.items, 0, r, q);
  }

  lemma {:induction false} SameObjects(v: Json, w: Json, r: JsString, q: JsString)
    requires WellFormed(v) && WellFormed(w) && v.Obj? && w.Obj?
    requires Stringify(v) + r == Stringify(w) + q
    ensures SameValue(v, w) && r == q
    decreases v, 1
  {
    hide Members, SortedKeys, Lookup, SameValue;
    var f, g := v.fields, w.fields;
    KeysExist(f);
    KeysExist(g);
    assert (Stringify(v) + r)[1..] == MembersText(f, SortedKeys(f), 0, r);
    assert (Stringify(w) + q)[1..] == MembersText(g, SortedKeys(g), 0, q);
    hide Stringify, MembersText;
    SameMembers(f, g, SortedKeys(f), SortedKeys(g), 0, r, q);
    SortedKeysExact(f);
    SortedKeysExact(g);
    SameFields(f, g);
  }

  lemma SameFields(f: seq<Field>, g: seq<Field>)
    requires DistinctKeys(f) && forall key :: HasKey(f, key) <==> HasKey(g, key)
    requires forall key :: HasKey(f, key) ==> SameValue(Lookup(f, key), Lookup(g, key))
    ensures SameValue(Obj(f), Obj(g))
  {
    forall i | 0 <= i < |f| && HasKey(g, f[i].key)
      ensures SameValue(f[i].value, Lookup(g, f[i].key))
    {
      LookupAt(f, i);
    }
  }

  lemma LookupAt(fields: seq<Field>, i: nat)
    requires DistinctKeys(fields) && i < |fields|
    ensures HasKey(fields, fields[i].key) && Lookup(fields, fields[i].key) == fields[i].value
  {
    assert fields[IndexOf(fields, fields[i].key)].key == fields[i].key;
  }

  lemma {:induction false} SameItems(a: seq<Json>, b: seq<Json>, k: nat, r: JsString, q: JsString)
    requires k <= |a| && k <= |b|
    requires forall i :: 0 <= i < |a| ==> WellFormed(a[i])
    requires forall i :: 0 <= i < |b| ==> WellFormed(b[i])
    requires ItemsText(a, k, r) == ItemsText(b, k, q)
    ensures |a| == |b| && r == q && forall i :: k <= i < |a| ==> SameValue(a[i], b[i])
    decreases a, 0, |a| - k
  {
    hide Stringify, SameValue, WellFormed, ItemsText;
    ItemsTextUnfolds(a, k, r);
    ItemsTextUnfolds(b, k, q);
    if k == |a| || k == |b| {
      assert ([RBRACKET] + r)[1..] == r && ([RBRACKET] + q)[1..] == q;
    } else {
      ItemsTextUnfolds(a, k + 1, r);
      ItemsTextUnfolds(b, k + 1, q);
      CancelPrefix(Separator(k), Stringify(a[k]) + ItemsText(a, k + 1, r), Stringify(b[k]) + ItemsText(b, k + 1, q));
      SameTextSameValue(a[k], b[k], ItemsText(a, k + 1, r), ItemsText(b, k + 1, q));
      SameItems(a, b, k + 1, r, q);
    }
  }

  lemma CancelPrefix(p: JsString, x: JsString, y: JsString)
    requires p + x == p + y
    ensures x == y
  {
    assert (p + x)[|p|..] == x && (p + y)[|p|..] == y;
  }

  /** What is left of an object's text from key `k` on, with the text after the object. */
  function MembersText(f: seq<Field>, keys: seq<JsString>, k: nat, r: JsString): JsString
    requires k <= |keys| && forall i :: 0 <= i < |keys| ==> HasKey(f, keys[i])
  {
    Members(f, keys, k) + ([RBRACE] + r)
  }

  lemma MembersTextUnfolds(f: seq<Field>, keys: seq<JsString>, k: nat, r: JsString)
    requires k <= |keys| && forall i :: 0 <= i < |keys| ==> HasKey(f, keys[i])
    ensures k == |keys| ==> MembersText(f, keys, k, r) == [RBRACE] + r
    ensures k < |keys| ==>
              MembersText(f, keys, k, r)
              == Separator(k) + (QuoteString(keys[k]) + ([COLON] + (Stringify(Lookup(f, keys[k])) + MembersText(f, keys, k + 1, r))))
    ensures |MembersText(f, keys, k, r)| > 0 && (k < |keys| ==> MembersText(f, keys, k, r)[0] != RBRACE)
    ensures k > 0 ==> Stops(MembersText(f, keys, k, r))
  {
    hide Stringify, Lookup, Escape, HasKey;
    if k < |keys| {
      var quoted := QuoteString(keys[k]);
      var value := Stringify(Lookup(f, keys[k]));
      var more := Members(f, keys, k + 1);
      assert quoted[0] == QUOTE;
      assert Members(f, keys, k) == Separator(k) + quoted + [COLON] + value + more;
      hide Members, QuoteString;
      ReassociateMember(Separator(k), quoted, value, more, [RBRACE] + r);
      StartsWith(k, quoted, [COLON] + (value + MembersText(f, keys, k + 1, r)));
    }
  }

  lemma ReassociateMember(a: JsString, b: JsString, c: JsString, d: JsString, e: JsString)
    ensures (a + b + [COLON] + c + d) + e == a + (b + ([COLON] + (c + (d + e))))
  {
  }

  lemma {:induction false} SameMembers(f: seq<Field>, g: seq<Field>, a: seq<JsString>, b: seq<JsString>, k: nat,
                                       r: JsString, q: JsString)
    requires k <= |a| && k <= |b|
    requires (forall i :: 0 <= i < |a| ==> HasKey(f, a[i])) && forall i :: 0 <= i < |b| ==> HasKey(g, b[i])
    requires forall i :: 0 <= i < |f| ==> WellFormed(f[i].value)
    requires forall i :: 0 <= i < |g| ==> WellFormed(g[i].value)
    requires MembersText(f, a, k, r) == MembersText(g, b, k, q)
    ensures a[k..] == b[k..] && r == q
    ensures forall key :: key in a[k..] ==> HasKey(f, key) && HasKey(g, key) && SameValue(Lookup(f, key), Lookup(g, key))
    decreases f, 0, |a| - k
  {
    hide Stringify, SameValue, WellFormed, IndexOf, QuoteString, MembersText;
    MembersTextUnfolds(f, a, k, r);
    MembersTextUnfolds(g, b, k, q);
    if k == |a| || k == |b| {
      assert ([RBRACE] + r)[1..] == r && ([RBRACE] + q)[1..] == q;
    } else {
      MembersTextUnfolds(f, a, k + 1, r);
      MembersTextUnfolds(g, b, k + 1, q);
      SameMember(f, g, a, b, k, r, q);
      SameTextSameValue(Lookup(f, a[k]), Lookup(g, b[k]), MembersText(f, a, k + 1, r), MembersText(g, b, k + 1, q));
      SameMembers(f, g, a, b, k + 1, r, q);
      assert a[k..] == [a[k]] + a[k + 1..] && b[k..] == [b[k]] + b[k + 1..];
    }
  }

  /** Equal texts from key `k` on have the same key there, and equal texts after its colon. */
  lemma SameMember(f: seq<Field>, g: seq<Field>, a: seq<JsString>, b: seq<JsString>, k: nat, r: JsString, q: JsString)
    requires k < |a| && k < |b|
    requires (forall i :: 0 <= i < |a| ==> HasKey(f, a[i])) && forall i :: 0 <= i < |b| ==> HasKey(g, b[i])
    requires MembersText(f, a, k, r) == MembersText(g, b, k, q)
    ensures a[k] == b[k]
    ensures Stringify(Lookup(f, a[k])) + MembersText(f, a, k + 1, r) == Stringify(Lookup(g, b[k])) + MembersText(g, b, k + 1, q)
  {
    MembersTextUnfolds(f, a, k, r);
    MembersTextUnfolds(g, b, k, q);
    hide MembersText, Stringify, Lookup, QuoteString;
    var x := Stringify(Lookup(f, a[k])) + MembersText(f, a, k + 1, r);
    var y := Stringify(Lookup(g, b[k])) + MembersText(g, b, k + 1, q);
    CancelPrefix(Separator(k), QuoteString(a[k]) + ([COLON] + x), QuoteString(b[k]) + ([COLON] + y));
    QuotePrefixFree(a[k], b[k], [COLON] + x, [COLON] + y);
    CancelPrefix([COLON], x, y);
  }

  // ----- key order does not show -----

  predicate StrictlySorted(keys: seq<JsString>) {
    forall i, j :: 0 <= i < j < |keys| ==> Less(keys[i], keys[j])
  }

  lemma {:induction false} LessIrreflexive(a: JsString)
    ensures !Less(a, a)
  {
    if |a| > 0 {
      LessIrreflexive(a[1..]);
    }
  }

  /** The order of keys: the first unit that differs decides, and a proper prefix comes first. */
  lemma {:induction false} LessIff(a: JsString, b: JsString)
    ensures Less(a, b) <==>
              exists n :: 0 <= n <= |a| && n < |b| && a[..n] == b[..n] && (n == |a| || a[n] < b[n])
  {
    if |a| > 0 && |b| > 0 && a[0] == b[0] {
      LessIff(a[1..], b[1..]);
      if Less(a, b) {
        var n :| 0 <= n <= |a[1..]| && n < |b[1..]| && a[1..][..n] == b[1..][..n] && (n == |a[1..]| || a[1..][n] < b[1..][n]);
        assert a[..n + 1] == [a[0]] + a[1..][..n] && b[..n + 1] == [b[0]] + b[1..][..n];
      }
      if n :| 0 <= n <= |a| && n < |b| && a[..n] == b[..n] && (n == |a| || a[n] < b[n]) {
        assert n > 0;
        assert a[1..][..n - 1] == a[..n][1..] && b[1..][..n - 1] == b[..n][1..];
      }
    } else if |b| > 0 {
      assert a[..0] == b[..0];
      if n :| 0 <= n <= |a| && n < |b| && a[..n] == b[..n] && (n == |a| || a[n] < b[n]) {
        assert n > 0 ==> a[..n][0] == b[..n][0];
      }
    }
  }

  lemma {:induction false} LessTotal(a: JsString, b: JsString)
    ensures !Less(a, a)
    ensures a == b || Less(a, b) || Less(b, a)
    ensures !(Less(a, b) && Less(b, a))
  {
    LessIrreflexive(a);
    if |a| > 0 && |b| > 0 && a[0] == b[0] {
      LessTotal(a[1..], b[1..]);
      assert a == [a[0]] + a[1..] && b == [b[0]] + b[1..];
    }
  }

  lemma {:induction false} LessTransitive(a: JsString, b: JsString, c: JsString)
    requires Less(a, b) && Less(b, c)
    ensures Less(a, c)
  {
    if |a| > 0 && a[0] == b[0] && b[0] == c[0] {
      LessTransitive(a[1..], b[1..], c[1..]);
    }
  }

  lemma {:induction false} InsertSorted(key: JsString, keys: seq<JsString>)
    requires StrictlySorted(keys) && key !in keys
    ensures StrictlySorted(Insert(key, keys))
  {
    if |keys| > 0 {
      var first := keys[0];
      LessTotal(key, first);
      if Less(key, first) {
        forall j | 0 <= j < |keys|
          ensures Less(key, keys[j])
        {
          if j > 0 { LessTransitive(key, first, keys[j]); }
        }
      } else {
        var rest := Insert(key, keys[1..]);
        InsertSorted(key, keys[1..]);
        InsertKeeps(key, keys[1..]);
        forall j | 0 <= j < |rest|
          ensures Less(first, rest[j])
        {
          assert rest[j] in rest;
        }
      }
    }
  }

  lemma {:induction false} SortedKeysSorted(fields: seq<Field>)
    requires DistinctKeys(fields)
    ensures StrictlySorted(SortedKeys(fields))
  {
    if |fields| > 0 {
      SortedKeysSorted(fields[..|fields| - 1]);
      SortedKeysExact(fields[..|fields| - 1]);
      InsertSorted(fields[|fields| - 1].key, SortedKeys(fields[..|fields| - 1]));
    }
  }

  lemma {:induction false} SortedUnique(a: seq<JsString>, b: seq<JsString>)
    requires StrictlySorted(a) && StrictlySorted(b)
    requires forall x :: x in a <==> x in b
    ensures a == b
  {
    assert forall i :: 0 <= i < |a| ==> a[i] in b;
    assert forall i :: 0 <= i < |b| ==> b[i] in a;
    if |a| > 0 && |b| > 0 {
      LessTotal(a[0], b[0]);
      assert a[0] in b && b[0] in a;
      var i :| 0 <= i < |a| && a[i] == b[0];
      var j :| 0 <= j < |b| && b[j] == a[0];
      assert a == [a[0]] + a[1..] && b == [b[0]] + b[1..];
      LessTotal(a[0], a[0]);
      forall x
        ensures x in a[1..] <==> x in b[1..]
      {
        if x in a[1..] {
          assert x in a;
          assert x != a[0];
        }
        if x in b[1..] {
          assert x in b;
          assert x != b[0];
        }
      }
      SortedUnique(a[1..], b[1..]);
    }
  }

  lemma {:induction false} SameValueSameText(v: Json, w: Json)
    requires WellFormed(v) && WellFormed(w) && SameValue(v, w)
    ensures Stringify(v) == Stringify(w)
    decreases v, 1
  {
    match v
    case Arr(items) => ItemsAgree(items, w.items, 0);
    case Obj(fields) =>
      SortedKeysSorted(fields);
      SortedKeysSorted(w.fields);
      SortedKeysExact(fields);
      SortedKeysExact(w.fields);
      SortedUnique(SortedKeys(fields), SortedKeys(w.fields));
      MembersAgree(fields, w.fields, SortedKeys(fields), 0);
    case _ =>
  }

  lemma {:induction false} ItemsAgree(a: seq<Json>, b: seq<Json>, k: nat)
    requires k <= |a| == |b|
    requires forall i :: 0 <= i < |a| ==> WellFormed(a[i]) && WellFormed(b[i]) && SameValue(a[i], b[i])
    ensures Items(a, k) == Items(b, k)
    decreases a, 0, |a| - k
  {
    if k < |a| {
      SameValueSameText(a[k], b[k]);
      ItemsAgree(a, b, k + 1);
    }
  }

  lemma {:induction false} MembersAgree(f: seq<Field>, g: seq<Field>, keys: seq<JsString>, k: nat)
    requires k <= |keys| && forall i :: 0 <= i < |keys| ==> HasKey(f, keys[i]) && HasKey(g, keys[i])
    requires forall i :: 0 <= i < |f| ==> WellFormed(f[i].value)
    requires forall i :: 0 <= i < |g| ==> WellFormed(g[i].value)
    requires forall i :: 0 <= i < |f| && HasKey(g, f[i].key) ==> SameValue(f[i].value, Lookup(g, f[i].key))
    ensures Members(f, keys, k) == Members(g, keys, k)
    decreases f, 0, |keys| - k
  {
    if k < |keys| {
      SameValueSameText(Lookup(f, keys[k]), Lookup(g, keys[k]));
      MembersAgree(f, g, keys, k + 1);
    }
  }

  /** The canonical serializer is injective up to key order, and blind to key order. */
  lemma StringifyInjectiveUpToKeyOrder(v: Json, w: Json)
    requires WellFormed(v) && WellFormed(w)
    ensures Stringify(v) == Stringify(w) <==> SameValue(v, w)
  {
    if Stringify(v) == Stringify(w) {
      SameTextSameValue(v, w, [], []);
    }
    if SameValue(v, w) {
      SameValueSameText(v, w);
    }
  }
}
