/** A reader for RFC 8259 texts with integer numbers: it gives back every value that the canonical serializer writes. */
module CanonicalJsonReader {
  import opened Options
  import opened Numerals
  import opened CanonicalJson
  import opened CanonicalJsonProofs

  const NULL: JsString := [110, 117, 108, 108]
  const TRUE: JsString := [116, 114, 117, 101]
  const FALSE: JsString := [102, 97, 108, 115, 101]

  /** The punctuation and the literals are the ones of the grammar. */
  lemma GrammarCharacters()
    ensures [LBRACKET, RBRACKET, LBRACE, RBRACE, COMMA, COLON, QUOTE, BACKSLASH, MINUS] == Units("[]{},:\"\\-")
    ensures NULL == Units("null") && TRUE == Units("true") && FALSE == Units("false")
  {
  }

  // ----- the reader -----

  /** How many digits the text starts with. */
  function DigitsAhead(t: JsString): (n: nat)
    ensures n <= |t| && AllDigits(t[..n]) && (n < |t| ==> !IsDigit(t[n]))
  {
    if |t| == 0 || !IsDigit(t[0]) then 0 else 1 + DigitsAhead(t[1..])
  }

  /** An integer part without leading zeros. */
  function ReadNumeral(t: JsString): (r: Option<(nat, JsString)>)
    ensures r.Some? ==> |r.value.1| < |t|
  {
    var n := DigitsAhead(t);
    if n == 0 || (n > 1 && t[0] == 48) then None else Some((FromDigits(t[..n]), t[n..]))
  }

  function ReadNumber(t: JsString): (r: Option<(Json, JsString)>)
    ensures r.Some? ==> |r.value.1| < |t|
  {
    if |t| > 0 && t[0] == MINUS then
      match ReadNumeral(t[1..])
      case None => None
      case Some((n, rest)) => Some((Num(0 - n), rest))
    else
      match ReadNumeral(t)
      case None => None
      case Some((n, rest)) => Some((Num(n), rest))
  }

  /** A value at the start of a text, and the text after it. */
  function ReadValue(t: JsString): (r: Option<(Json, JsString)>)
    ensures r.Some? ==> |r.value.1| < |t|
    decreases |t|, 0
  {
    if NULL <= t then Some((Null, t[4..]))
    else if TRUE <= t then Some((Bool(true), t[4..]))
    else if FALSE <= t then Some((Bool(false), t[5..]))
    else if |t| > 0 && t[0] == QUOTE then
      match ReadBody(t[1..])
      case None => None
      case Some((s, rest)) => Some((Str(s), rest))
    else if |t| > 1 && t[0] == LBRACKET then
      if t[1] == RBRACKET then Some((Arr([]), t[2..]))
      else
        match ReadItems(t[1..])
        case None => None
        case Some((items, rest)) => Some((Arr(items), rest))
    else if |t| > 1 && t[0] == LBRACE then
      if t[1] == RBRACE then Some((Obj([]), t[2..]))
      else
        match ReadMembers(t[1..])
        case None => None
        case Some((fields, rest)) => Some((Obj(fields), rest))
    else ReadNumber(t)
  }

  /** One item or more, up to the closing bracket. */
  function ReadItems(t: JsString): (r: Option<(seq<Json>, JsString)>)
    ensures r.Some? ==> |r.value.1| < |t|
    decreases |t|, 1
  {
    match ReadValue(t)
    case None => None
    case Some((v, rest)) =>
      if |rest| > 0 && rest[0] == RBRACKET then Some(([v], rest[1..]))
      else if |rest| == 0 || rest[0] != COMMA then None
      else
        match ReadItems(rest[1..])
        case None => None
        case Some((vs, end)) => Some(([v] + vs, end))
  }

  /** One member or more, up to the closing brace. */
  function ReadMembers(t: JsString): (r: Option<(seq<Field>, JsString)>)
    ensures r.Some? ==> |r.value.1| < |t|
    decreases |t|, 1
  {
    if |t| == 0 || t[0] != QUOTE then None
    else
      match ReadBody(t[1..])
      case None => None
      case Some((key, more)) =>
        if |more| == 0 || more[0] != COLON then None
        else
          match ReadValue(more[1..])
          case None => None
          case Some((v, rest)) =>
            if |rest| > 0 && rest[0] == RBRACE then Some(([Field(key, v)], rest[1..]))
            else if |rest| == 0 || rest[0] != COMMA then None
            else
              match ReadMembers(rest[1..])
              case None => None
              case Some((fields, end)) => Some(([Field(key, v)] + fields, end))
  }

  // ----- what is read -----

  /** Object keys stand in code-unit order at every depth. */
  predicate Ordered(v: Json) {
    match v
    case Arr(items) => forall i :: 0 <= i < |items| ==> Ordered(items[i])
    case Obj(fields) => KeysInOrder(fields) && forall i :: 0 <= i < |fields| ==> Ordered(fields[i].value)
    case _ => true
  }

  predicate KeysInOrder(fields: seq<Field>) {
    forall i, j :: 0 <= i < j < |fields| ==> Less(fields[i].key, fields[j].key)
  }

  /** What the reader makes of a text. */
  ghost predicate Reads(t: JsString, v: Json, w: Json, rest: JsString) {
    ReadValue(t) == Some((w, rest)) && SameValue(v, w) && Ordered(w)
  }

  lemma {:induction false} DigitsEnd(a: JsString, r: JsString)
    requires AllDigits(a) && NoDigitFirst(r)
    ensures DigitsAhead(a + r) == |a|
  {
    if |a| == 0 {
      assert a + r == r;
    } else {
      assert (a + r)[1..] == a[1..] + r;
      DigitsEnd(a[1..], r);
    }
  }

  lemma NumeralReads(n: nat, r: JsString)
    requires NoDigitFirst(r)
    ensures ReadNumeral(ToDigits(n) + r) == Some((n, r))
  {
    hide ToDigits, FromDigits, DigitsAhead;
    var text := ToDigits(n) + r;
    DigitsEnd(ToDigits(n), r);
    assert text[..|ToDigits(n)|] == ToDigits(n) && text[|ToDigits(n)|..] == r;
    FromTo(n);
    ToDigitsCanonical(n);
  }

  lemma NumberReads(n: int, r: JsString)
    requires NoDigitFirst(r)
    ensures ReadValue(ToDecimal(n) + r) == Some((Num(n), r))
  {
    hide ReadNumeral, ToDigits, ReadBody;
    SignShows(n, r);
    if n < 0 {
      NumeralReads(-n, r);
      MinusMoves(n, r);
      assert ([MINUS] + (ToDigits(-n) + r))[1..] == ToDigits(-n) + r;
    } else {
      NumeralReads(n, r);
      assert IsDigit((ToDigits(n) + r)[0]);
    }
  }

  lemma StringReads(s: JsString, r: JsString)
    ensures ReadValue(QuoteString(s) + r) == Some((Str(s), r))
  {
    hide ReadBody, Escape;
    QuoteReads(s, r);
    assert (QuoteString(s) + r)[0] == QUOTE;
  }

  /** Every value comes back: the same up to the order of object keys, which stand in order. */
  lemma {:induction false} ReadsBack(v: Json, r: JsString) returns (w: Json)
    requires WellFormed(v) && Stops(r)
    ensures Reads(Stringify(v) + r, v, w, r)
    decreases v, 2
  {
    match v
    case Null =>
      w := Null;
      assert (NULL + r)[4..] == r;
    case Bool(b) =>
      w := Bool(b);
      assert (TRUE + r)[4..] == r && (FALSE + r)[5..] == r;
      assert (TRUE + r)[0] == 116 && (FALSE + r)[0] == 102;
    case Num(n) =>
      w := Num(n);
      NumberReads(n, r);
    case Str(s) =>
      w := Str(s);
      StringReads(s, r);
    case Arr(_) => w := ArrayReads(v, r);
    case Obj(_) => w := ObjectReads(v, r);
  }

  lemma {:induction false} ArrayReads(v: Json, r: JsString) returns (w: Json)
    requires WellFormed(v) && v.Arr?
    ensures Reads(Stringify(v) + r, v, w, r)
    decreases v, 1
  {
    var t := Stringify(v) + r;
    assert forall i :: 0 <= i < |v.items| ==> WellFormed(v.items[i]);
    hide Stringify, ItemsText, ReadValue, ReadItems, SameValue, Ordered, WellFormed;
    ArrayOpens(v, r);
    ItemsTextUnfolds(v.items, 0, r);
    var ws: seq<Json> := [];
    if |v.items| == 0 {
      EmptyReads(t, r);
    } else {
      ws := ItemsRead(v.items, 0, r);
      assert Separator(0) + (Stringify(v.items[0]) + ItemsText(v.items, 1, r)) == Stringify(v.items[0]) + ItemsText(v.items, 1, r);
      BracketReads(t, ws, r);
    }
    w := Arr(ws);
    SameItemwise(v, w);
  }

  lemma SameItemwise(v: Json, w: Json)
    requires v.Arr? && w.Arr? && |v.items| == |w.items|
    requires forall i :: 0 <= i < |w.items| ==> SameValue(v.items[i], w.items[i]) && Ordered(w.items[i])
    ensures SameValue(v, w) && Ordered(w)
  {
  }

  lemma ArrayOpens(v: Json, r: JsString)
    requires v.Arr?
    ensures var t := Stringify(v) + r; |t| > 1 && t[0] == LBRACKET && t[1..] == ItemsText(v.items, 0, r)
  {
    assert (Stringify(v) + r)[1..] == ItemsText(v.items, 0, r);
  }

  lemma EmptyReads(t: JsString, r: JsString)
    requires |t| > 1
    ensures t[0] == LBRACKET && t[1..] == [RBRACKET] + r ==> ReadValue(t) == Some((Arr([]), r))
    ensures t[0] == LBRACE && t[1..] == [RBRACE] + r ==> ReadValue(t) == Some((Obj([]), r))
  {
    assert t[2..] == t[1..][1..] && t[1] == t[1..][0];
  }

  lemma BracketReads(t: JsString, ws: seq<Json>, r: JsString)
    requires |t| > 1 && t[0] == LBRACKET && t[1..][0] != RBRACKET && ReadItems(t[1..]) == Some((ws, r))
    ensures ReadValue(t) == Some((Arr(ws), r))
  {
    hide ReadItems;
    assert t[1] == t[1..][0];
  }

  lemma BraceReads(t: JsString, fields: seq<Field>, r: JsString)
    requires |t| > 1 && t[0] == LBRACE && t[1..][0] != RBRACE && ReadMembers(t[1..]) == Some((fields, r))
    ensures ReadValue(t) == Some((Obj(fields), r))
  {
    hide ReadMembers;
    assert t[1] == t[1..][0];
  }

  lemma {:induction false} ItemsRead(a: seq<Json>, k: nat, r: JsString) returns (ws: seq<Json>)
    requires k < |a| && forall i :: 0 <= i < |a| ==> WellFormed(a[i])
    ensures ReadItems(Stringify(a[k]) + ItemsText(a, k + 1, r)) == Some((ws, r))
    ensures |ws| == |a| - k && forall i :: 0 <= i < |ws| ==> SameValue(a[k + i], ws[i]) && Ordered(ws[i])
    decreases a, 0, |a| - k
  {
    hide Stringify, SameValue, Ordered, WellFormed, ItemsText, ReadValue;
    var rest := ItemsText(a, k + 1, r);
    ItemsTextUnfolds(a, k + 1, r);
    var w := ReadsBack(a[k], rest);
    if k + 1 == |a| {
      ws := [w];
      assert ([RBRACKET] + r)[1..] == r;
    } else {
      var more := ItemsRead(a, k + 1, r);
      ws := [w] + more;
      assert ([COMMA] + (Stringify(a[k + 1]) + ItemsText(a, k + 2, r)))[1..] == Stringify(a[k + 1]) + ItemsText(a, k + 2, r);
    }
  }

  lemma {:induction false} ObjectReads(v: Json, r: JsString) returns (w: Json)
    requires WellFormed(v) && v.Obj?
    ensures Reads(Stringify(v) + r, v, w, r)
    decreases v, 1
  {
    var f, t := v.fields, Stringify(v) + r;
    var keys := SortedKeys(f);
    KeysExist(f);
    ObjectOpens(v, r);
    SortedKeysSorted(f);
    SortedKeysExact(f);
    hide Stringify, MembersText, SortedKeys, Lookup, HasKey, QuoteString, SameValue, ReadValue, ReadMembers;
    MembersTextUnfolds(f, keys, 0, r);
    var g: seq<Field> := [];
    if |keys| == 0 {
      EmptyReads(t, r);
    } else {
      g := MembersRead(f, keys, 0, r);
      assert Separator(0) + MemberText(f, keys, 0, r) == MemberText(f, keys, 0, r);
      BraceReads(t, g, r);
    }
    w := Obj(g);
    SameKeyed(f, keys, g);
  }

  lemma ObjectOpens(v: Json, r: JsString)
    requires v.Obj? && forall i :: 0 <= i < |SortedKeys(v.fields)| ==> HasKey(v.fields, SortedKeys(v.fields)[i])
    ensures var t := Stringify(v) + r; |t| > 1 && t[0] == LBRACE && t[1..] == MembersText(v.fields, SortedKeys(v.fields), 0, r)
  {
    hide Members, SortedKeys;
    assert (Stringify(v) + r)[1..] == MembersText(v.fields, SortedKeys(v.fields), 0, r);
  }

  /** Member `k` without its separator, and all that follows it. */
  function MemberText(f: seq<Field>, keys: seq<JsString>, k: nat, r: JsString): JsString
    requires k < |keys| && forall i :: 0 <= i < |keys| ==> HasKey(f, keys[i])
  {
    QuoteString(keys[k]) + ([COLON] + (Stringify(Lookup(f, keys[k])) + MembersText(f, keys, k + 1, r)))
  }

  lemma {:induction false} MembersRead(f: seq<Field>, keys: seq<JsString>, k: nat, r: JsString) returns (g: seq<Field>)
    requires k < |keys| && forall i :: 0 <= i < |keys| ==> HasKey(f, keys[i])
    requires forall i :: 0 <= i < |f| ==> WellFormed(f[i].value)
    ensures ReadMembers(MemberText(f, keys, k, r)) == Some((g, r))
    ensures |g| == |keys| - k
    ensures forall i :: 0 <= i < |g| ==> g[i].key == keys[k + i] && SameValue(Lookup(f, keys[k + i]), g[i].value) && Ordered(g[i].value)
    decreases f, 0, |keys| - k
  {
    hide Stringify, SameValue, Ordered, WellFormed, MembersText, ReadValue, ReadBody, QuoteString, IndexOf;
    var rest := MembersText(f, keys, k + 1, r);
    var value := Stringify(Lookup(f, keys[k])) + rest;
    MembersTextUnfolds(f, keys, k + 1, r);
    KeyReads(keys[k], value);
    var w := ReadsBack(Lookup(f, keys[k]), rest);
    if k + 1 == |keys| {
      g := [Field(keys[k], w)];
      assert ([RBRACE] + r)[1..] == r;
    } else {
      var more := MembersRead(f, keys, k + 1, r);
      g := [Field(keys[k], w)] + more;
      assert ([COMMA] + MemberText(f, keys, k + 1, r))[1..] == MemberText(f, keys, k + 1, r);
    }
  }

  lemma KeyReads(key: JsString, value: JsString)
    ensures var t := QuoteString(key) + ([COLON] + value);
            && t[0] == QUOTE && ReadBody(t[1..]) == Some((key, [COLON] + value))
            && ([COLON] + value)[1..] == value
  {
    hide ReadBody, Escape;
    QuoteReads(key, [COLON] + value);
  }

  /** The fields read, one for each sorted key, make the same object. */
  lemma SameKeyed(f: seq<Field>, keys: seq<JsString>, g: seq<Field>)
    requires DistinctKeys(f) && StrictlySorted(keys) && forall x :: x in keys <==> HasKey(f, x)
    requires |g| == |keys| && forall i :: 0 <= i < |g| ==> g[i].key == keys[i] && HasKey(f, keys[i])
    requires forall i :: 0 <= i < |g| ==> SameValue(Lookup(f, keys[i]), g[i].value) && Ordered(g[i].value)
    ensures SameValue(Obj(f), Obj(g)) && Ordered(Obj(g))
  {
    hide SameValue, Lookup;
    assert DistinctKeys(g) by {
      forall i, j | 0 <= i < j < |g|
        ensures g[i].key != g[j].key
      {
        LessTotal(keys[i], keys[j]);
      }
    }
    forall x
      ensures HasKey(f, x) <==> HasKey(g, x)
    {
      if x in keys {
        var i :| 0 <= i < |keys| && keys[i] == x;
        assert g[i].key == x;
      }
      if HasKey(g, x) {
        var i :| 0 <= i < |g| && g[i].key == x;
        assert keys[i] in keys;
      }
    }
    forall x | HasKey(f, x)
      ensures HasKey(g, x) && SameValue(Lookup(f, x), Lookup(g, x))
    {
      var i :| 0 <= i < |keys| && keys[i] == x;
      LookupAt(g, i);
    }
    SameFields(f, g);
  }

  /** A whole document is read to its end. */
  lemma StringifyRoundTrip(v: Json) returns (w: Json)
    requires WellFormed(v)
    ensures ReadValue(Stringify(v)) == Some((w, [])) && SameValue(v, w) && Ordered(w)
  {
    w := ReadsBack(v, []);
    assert Stringify(v) + [] == Stringify(v);
  }
}
