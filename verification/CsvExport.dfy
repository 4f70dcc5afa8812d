/** CSV export, read back by the quoting rules of section 2 of RFC 4180 with LF line ends. */
module CsvExport {
  import opened Options
  import opened Transactions

  const HEADERS: seq<string> := ["id", "txHash", "sourceAddr", "targetAddr", "status", "amount", "fee", "createdAt", "currency"]

  function FieldsOf(t: Transaction): seq<string> {
    [t.id, t.txHash, t.sourceAddr, t.targetAddr, t.status, t.amount, t.fee, t.createdAt, t.currency]
  }

  /** `tx[key]`. */
  function Column(t: Transaction, key: string): string {
    match key
    case "id" => t.id
    case "txHash" => t.txHash
    case "sourceAddr" => t.sourceAddr
    case "targetAddr" => t.targetAddr
    case "status" => t.status
    case "amount" => t.amount
    case "fee" => t.fee
    case "createdAt" => t.createdAt
    case _ => t.currency
  }

  /** Every value stands under the header of its own column. */
  predicate HoldsRow(record: seq<string>, t: Transaction) {
    |record| == |HEADERS| && forall i :: 0 <= i < |HEADERS| ==> record[i] == Column(t, HEADERS[i])
  }

  lemma RowHolds(t: Transaction)
    ensures HoldsRow(FieldsOf(t), t)
  {
  }

  function DoubleQuotes(s: string): string {
    if |s| == 0 then "" else (if s[0] == '"' then "\"\"" else [s[0]]) + DoubleQuotes(s[1..])
  }

  predicate NeedsQuotes(s: string) {
    ',' in s || '"' in s || '\n' in s || '\r' in s
  }

  function EscapeField(s: string): string {
    if NeedsQuotes(s) then "\"" + DoubleQuotes(s) + "\"" else s
  }

  function Join(parts: seq<string>, separator: char): string {
    if |parts| == 0 then "" else if |parts| == 1 then parts[0] else parts[0] + [separator] + Join(parts[1..], separator)
  }

  function Escaped(fields: seq<string>): (r: seq<string>)
    ensures |r| == |fields|
  {
    if |fields| == 0 then [] else [EscapeField(fields[0])] + Escaped(fields[1..])
  }

  function Row(fields: seq<string>): string {
    Join(Escaped(fields), ',')
  }

  function Rows(transactions: seq<Transaction>): seq<string> {
    if |transactions| == 0 then [] else [Row(FieldsOf(transactions[0]))] + Rows(transactions[1..])
  }

  /** The header line is joined without escaping. */
  function SerializeTransactionsCsv(transactions: seq<Transaction>): string {
    Join([Join(HEADERS, ',')] + Rows(transactions), '\n')
  }

  // ----- a reader -----

  /** The rest of a quoted field: a doubled quote is a quote, a single one ends the field. */
  function ReadQuoted(s: string): (r: Option<(string, string)>)
    ensures r.Some? ==> |r.value.1| < |s|
  {
    if |s| == 0 then None
    else if s[0] == '"' && (|s| == 1 || s[1] != '"') then Some(("", s[1..]))
    else
      var n := if s[0] == '"' then 2 else 1;
      match ReadQuoted(s[n..])
      case None => None
      case Some((field, rest)) => Some(([s[0]] + field, rest))
  }

  /** An unquoted field runs to the next comma or line end, and may hold neither quotes nor CR. */
  function ReadBare(s: string): (r: Option<(string, string)>)
    ensures r.Some? ==> |r.value.1| <= |s|
  {
    if |s| == 0 || s[0] == ',' || s[0] == '\n' then Some(("", s))
    else if s[0] == '"' || s[0] == '\r' then None
    else
      match ReadBare(s[1..])
      case None => None
      case Some((field, rest)) => Some(([s[0]] + field, rest))
  }

  function ReadField(s: string): (r: Option<(string, string)>)
    ensures r.Some? ==> |r.value.1| <= |s|
  {
    if |s| > 0 && s[0] == '"' then ReadQuoted(s[1..]) else ReadBare(s)
  }

  /** The records of a document: fields end at a comma, records at a line end. */
  function ReadRecords(s: string): Option<seq<seq<string>>>
    decreases |s|
  {
    match ReadField(s)
    case None => None
    case Some((field, rest)) =>
      if |rest| == 0 then Some([[field]])
      else if rest[0] != ',' && rest[0] != '\n' then None
      else
        match ReadRecords(rest[1..])
        case None => None
        case Some(records) =>
          if rest[0] == '\n' then Some([[field]] + records)
          else if |records| == 0 then None
          else Some([[field] + records[0]] + records[1..])
  }

  // ----- the round trip -----

  predicate EndsField(rest: string) {
    |rest| == 0 || rest[0] == ',' || rest[0] == '\n'
  }

  lemma {:induction false} QuotedRoundTrip(s: string, rest: string)
    requires EndsField(rest)
    ensures ReadQuoted(DoubleQuotes(s) + ("\"" + rest)) == Some((s, rest))
  {
    hide ReadQuoted;
    if |s| == 0 {
      assert DoubleQuotes(s) + ("\"" + rest) == "\"" + rest;
      ReadQuotedEnd(rest);
    } else {
      QuotedRoundTrip(s[1..], rest);
      var tail := DoubleQuotes(s[1..]) + ("\"" + rest);
      assert DoubleQuotes(s) + ("\"" + rest) == (if s[0] == '"' then "\"\"" else [s[0]]) + tail;
      ReadQuotedStep(s[0], tail);
      assert s == [s[0]] + s[1..];
    }
  }

  lemma ReadQuotedEnd(rest: string)
    requires EndsField(rest)
    ensures ReadQuoted("\"" + rest) == Some(("", rest))
  {
    assert ("\"" + rest)[1..] == rest;
  }

  lemma ReadQuotedStep(c: char, tail: string)
    ensures var t := (if c == '"' then "\"\"" else [c]) + tail;
            ReadQuoted(t) == match ReadQuoted(tail)
                             case None => None
                             case Some((field, rest)) => Some(([c] + field, rest))
  {
    var t := (if c == '"' then "\"\"" else [c]) + tail;
    var n := if c == '"' then 2 else 1;
    assert t[n..] == tail;
  }

  lemma {:induction false} BareRoundTrip(s: string, rest: string)
    requires EndsField(rest) && !NeedsQuotes(s)
    ensures ReadBare(s + rest) == Some((s, rest))
  {
    if |s| == 0 {
      assert s + rest == rest;
    } else {
      BareRoundTrip(s[1..], rest);
      assert s == [s[0]] + s[1..];
      assert (s + rest)[1..] == s[1..] + rest;
      assert s[0] in s;
    }
  }

  /** A field comes back whatever it holds. */
  lemma FieldRoundTrip(s: string, rest: string)
    requires EndsField(rest)
    ensures ReadField(EscapeField(s) + rest) == Some((s, rest))
  {
    hide ReadQuoted, ReadBare, DoubleQuotes;
    var t := EscapeField(s) + rest;
    if NeedsQuotes(s) {
      QuotedRoundTrip(s, rest);
      assert t[1..] == DoubleQuotes(s) + ("\"" + rest);
    } else {
      BareRoundTrip(s, rest);
      assert |s| > 0 ==> s[0] in s;
    }
  }

  lemma MoreFields(s: string, field: string, more: string)
    requires ReadField(s) == Some((field, [','] + more))
    ensures match ReadRecords(more)
            case None => ReadRecords(s) == None
            case Some(records) => |records| > 0 ==> ReadRecords(s) == Some([[field] + records[0]] + records[1..])
  {
    assert ([','] + more)[1..] == more;
  }

  lemma RowUnfolds(fields: seq<string>)
    requires |fields| > 0
    ensures Row(fields) == EscapeField(fields[0]) + if |fields| == 1 then "" else [','] + Row(fields[1..])
  {
    hide EscapeField;
    assert Escaped(fields)[1..] == Escaped(fields[1..]);
  }

  /** A row in front of the rest of a document reads as one more record. */
  lemma {:induction false} RowRoundTrip(fields: seq<string>, rest: string)
    requires |fields| > 0 && (|rest| == 0 || rest[0] == '\n')
    ensures |rest| == 0 ==> ReadRecords(Row(fields) + rest) == Some([fields])
    ensures |rest| > 0 && ReadRecords(rest[1..]).Some? ==>
              ReadRecords(Row(fields) + rest) == Some([fields] + ReadRecords(rest[1..]).value)
  {
    RowUnfolds(fields);
    hide ReadField, EscapeField, Row;
    assert fields == [fields[0]] + fields[1..];
    if |fields| == 1 {
      assert Row(fields) == EscapeField(fields[0]);
      FieldRoundTrip(fields[0], rest);
      assert fields == [fields[0]];
    } else {
      var more := Row(fields[1..]) + rest;
      RowRoundTrip(fields[1..], rest);
      assert Row(fields) + rest == EscapeField(fields[0]) + ([','] + more);
      FieldRoundTrip(fields[0], [','] + more);
      assert ([','] + more)[1..] == more;
      MoreFields(EscapeField(fields[0]) + ([','] + more), fields[0], more);
      if |rest| == 0 {
        var records := [fields[1..]];
        assert [[fields[0]] + records[0]] + records[1..] == [fields];
      }
      if |rest| > 0 && ReadRecords(rest[1..]).Some? {
        assert ([fields[1..]] + ReadRecords(rest[1..]).value)[1..] == ReadRecords(rest[1..]).value;
      }
    }
  }

  function AllFields(transactions: seq<Transaction>): seq<seq<string>> {
    if |transactions| == 0 then [] else [FieldsOf(transactions[0])] + AllFields(transactions[1..])
  }

  lemma {:induction false} RowsRoundTrip(first: seq<string>, transactions: seq<Transaction>)
    requires |first| > 0
    ensures ReadRecords(Join([Row(first)] + Rows(transactions), '\n')) == Some([first] + AllFields(transactions))
    decreases transactions
  {
    var lines := [Row(first)] + Rows(transactions);
    if |transactions| == 0 {
      assert lines == [Row(first)];
      RowRoundTrip(first, "");
      assert Row(first) + "" == Row(first);
      assert [first] + [] == [first];
    } else {
      var next := FieldsOf(transactions[0]);
      RowsRoundTrip(next, transactions[1..]);
      var rest := Join([Row(next)] + Rows(transactions[1..]), '\n');
      assert lines[1..] == [Row(next)] + Rows(transactions[1..]);
      assert Join(lines, '\n') == Row(first) + (['\n'] + rest);
      RowRoundTrip(first, ['\n'] + rest);
      assert (['\n'] + rest)[1..] == rest;
    }
  }

  lemma HeadersNeedNoQuotes()
    ensures Escaped(HEADERS) == HEADERS
  {
    assert forall i :: 0 <= i < |HEADERS| ==> !NeedsQuotes(HEADERS[i]);
    EscapedSame(HEADERS);
  }

  lemma {:induction false} EscapedSame(fields: seq<string>)
    requires forall i :: 0 <= i < |fields| ==> !NeedsQuotes(fields[i])
    ensures Escaped(fields) == fields
  {
    if |fields| > 0 {
      EscapedSame(fields[1..]);
    }
  }

  lemma {:induction false} AllFieldsAt(transactions: seq<Transaction>, n: nat)
    requires n < |transactions|
    ensures |AllFields(transactions)| == |transactions| && AllFields(transactions)[n] == FieldsOf(transactions[n])
  {
    if n > 0 {
      AllFieldsAt(transactions[1..], n - 1);
    } else if |transactions| > 1 {
      AllFieldsAt(transactions[1..], 0);
    }
  }

  /** Export loses nothing: the reader gives back the header, and under it every field of every row. */
  lemma ExportRoundTrip(transactions: seq<Transaction>)
    ensures var records := ReadRecords(SerializeTransactionsCsv(transactions));
            && records.Some? && |records.value| == 1 + |transactions| && records.value[0] == HEADERS
            && forall n :: 1 <= n <= |transactions| ==> HoldsRow(records.value[n], transactions[n - 1])
  {
    hide ReadRecords, SerializeTransactionsCsv, AllFields, HoldsRow;
    ExportReads(transactions);
    AllFieldsSize(transactions);
    forall n | 1 <= n <= |transactions|
      ensures HoldsRow(([HEADERS] + AllFields(transactions))[n], transactions[n - 1])
    {
      AllFieldsAt(transactions, n - 1);
      RowHolds(transactions[n - 1]);
    }
  }

  lemma AllFieldsSize(transactions: seq<Transaction>)
    ensures |AllFields(transactions)| == |transactions|
  {
    if |transactions| > 0 {
      AllFieldsAt(transactions, 0);
    }
  }

  lemma ExportReads(transactions: seq<Transaction>)
    ensures ReadRecords(SerializeTransactionsCsv(transactions)) == Some([HEADERS] + AllFields(transactions))
  {
    HeadersNeedNoQuotes();
    RowsRoundTrip(HEADERS, transactions);
  }
}
