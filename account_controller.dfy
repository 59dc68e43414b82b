/** The statement download of the account endpoints: the format check, and the CSV document
    built row by row from the statement's entries. */
module AccountController {
  import opened Wrappers
  import opened Text
  import opened Entities
  import opened Ledger
  import opened TransactionService

  /** The two statement formats the endpoint serves. */
  datatype Format = Csv | Json

  /** The format check: "csv" or "json" in any case; anything else is answered with an
      empty 400 response. */
  function ParseFormat(format: string): (r: Result<Format, Error>)
    ensures r == Success(Csv) <==> EqualsIgnoreCase("csv", format)
    ensures r == Success(Json) <==> EqualsIgnoreCase("json", format)
    ensures r.Failure? <==> !EqualsIgnoreCase("csv", format) && !EqualsIgnoreCase("json", format)
    ensures r.Failure? ==> r == Failure(BadRequest(""))
  {
    if EqualsIgnoreCase("json", format) then Success(Json)
    else if EqualsIgnoreCase("csv", format) then Success(Csv)
    else Failure(BadRequest(""))
  }

  /** How many times `c` occurs in `s`. */
  function Count(s: string, c: char): nat {
    if s == [] then 0 else (if s[0] == c then 1 else 0) + Count(s[1..], c)
  }

  lemma {:induction false} CountConcat(a: string, b: string, c: char)
    ensures Count(a + b, c) == Count(a, c) + Count(b, c)
  {
    if a == [] {
      assert a + b == b;
    } else {
      assert (a + b)[1..] == a[1..] + b;
      CountConcat(a[1..], b, c);
    }
  }

  lemma {:induction false} CountAbsent(s: string, c: char)
    requires forall i | 0 <= i < |s| :: s[i] != c
    ensures Count(s, c) == 0
  {
    if s != [] {
      CountAbsent(s[1..], c);
    }
  }

  /** `replace("\"", "\"\"")`: every double quote doubled. */
  function EscapeQuotes(s: string): (r: string)
    ensures |r| == |s| + Count(s, '\"')
  {
    if s == [] then []
    else (if s[0] == '\"' then "\"\"" else [s[0]]) + EscapeQuotes(s[1..])
  }

  /** Escaping doubles the quotes and keeps every other character's count. */
  lemma {:induction false} EscapeCounts(s: string, c: char)
    ensures Count(EscapeQuotes(s), c) == if c == '\"' then 2 * Count(s, c) else Count(s, c)
  {
    if s != [] {
      var head := if s[0] == '\"' then "\"\"" else [s[0]];
      EscapeCounts(s[1..], c);
      CountConcat(head, EscapeQuotes(s[1..]), c);
      assert head == [s[0]] || head == [s[0], s[0]];
      if head == [s[0], s[0]] {
        assert head[1..] == [s[0]];
      }
    }
  }

  /** A CSV reader's view of a quoted field, from just after its opening quote: `""` is one
      quote, a lone `"` closes the field. Gives the field's text and what follows it. */
  function ReadQuoted(r: string): Option<(string, string)>
  {
    if r == [] then None
    else if r[0] == '\"' && |r| >= 2 && r[1] == '\"' then
      match ReadQuoted(r[2..])
      case None => None
      case Some((field, rest)) => Some(("\"" + field, rest))
    else if r[0] == '\"' then Some(([], r[1..]))
    else
      match ReadQuoted(r[1..])
      case None => None
      case Some((field, rest)) => Some(([r[0]] + field, rest))
  }

  lemma AppendAssoc(a: string, b: string, c: string)
    ensures a + b + c == a + (b + c)
  {
  }

  /** A doubled quote reads as one quote and the reader carries on. */
  lemma ReadDoubledQuote(tail: string, field: string, rest: string)
    requires ReadQuoted(tail) == Some((field, rest))
    ensures ReadQuoted("\"\"" + tail) == Some(("\"" + field, rest))
  {
    assert ("\"\"" + tail)[2..] == tail;
  }

  /** Any other character is taken into the field as it is. */
  lemma ReadPlain(c: char, tail: string, field: string, rest: string)
    requires c != '\"' && ReadQuoted(tail) == Some((field, rest))
    ensures ReadQuoted([c] + tail) == Some(([c] + field, rest))
  {
    assert ([c] + tail)[1..] == tail;
  }

  /** The quoted reference field reads back as the original text, and the reader stops
      exactly at its closing quote, whatever quotes the text holds. */
  lemma {:induction false} QuotedFieldRoundTrip(s: string, rest: string)
    requires rest == [] || rest[0] != '\"'
    ensures ReadQuoted(EscapeQuotes(s) + "\"" + rest) == Some((s, rest))
  {
    if s == [] {
      assert EscapeQuotes(s) + "\"" + rest == "\"" + rest;
    } else {
      var head := if s[0] == '\"' then "\"\"" else [s[0]];
      var tail := EscapeQuotes(s[1..]) + "\"" + rest;
      QuotedFieldRoundTrip(s[1..], rest);
      AppendAssoc(head, EscapeQuotes(s[1..]), "\"");
      AppendAssoc(head, EscapeQuotes(s[1..]) + "\"", rest);
      if s[0] == '\"' {
        ReadDoubledQuote(tail, s[1..], rest);
        assert "\"" + s[1..] == s;
      } else {
        ReadPlain(s[0], tail, s[1..], rest);
        assert [s[0]] + s[1..] == s;
      }
    }
  }

  const CsvHeader := "transactionId,accountId,type,amount,timestamp,referenceText\n"

  /** Fields joined by commas. */
  function JoinFields(fields: seq<string>): string {
    if fields == [] then ""
    else if |fields| == 1 then fields[0]
    else fields[0] + "," + JoinFields(fields[1..])
  }

  /** The fields of one CSV line: id, account, type, the amount with two decimals (a null
      amount is 0.00), the timestamp as `fmt` renders it (empty when null), and the reference
      in double quotes with its quotes doubled (empty when null). */
  function Fields(t: Txn, fmt: Timestamp -> string): seq<string> {
    [ NatToString(t.transactionId),
      NatToString(t.accountId),
      t.kind,
      FormatCents(AmountOrZero(t)),
      if t.timestamp.Some? then fmt(t.timestamp.value) else "",
      "\"" + EscapeQuotes(t.referenceText.GetOr("")) + "\"" ]
  }

  /** One CSV line, ended by a line break. */
  function CsvRow(t: Txn, fmt: Timestamp -> string): (r: string)
    ensures |r| > 0 && r[|r| - 1] == '\n'
  {
    JoinFields(Fields(t, fmt)) + "\n"
  }

  /** The CSV lines of the entries, in order. */
  function Rows(txs: seq<Txn>, fmt: Timestamp -> string): (r: string)
    ensures |r| >= |txs|
    ensures txs != [] ==> r[|r| - 1] == '\n'
  {
    if txs == [] then "" else Rows(txs[..|txs| - 1], fmt) + CsvRow(txs[|txs| - 1], fmt)
  }

  /** The CSV branch: the header line, then one line per entry appended in order. */
  method WriteCsv(txs: seq<Txn>, fmt: Timestamp -> string) returns (body: string)
    ensures body == CsvHeader + Rows(txs, fmt)
  {
    body := CsvHeader;
    for i := 0 to |txs|
      invariant body == CsvHeader + Rows(txs[..i], fmt)
    {
      RowsSnoc(txs, i, fmt);
      AppendAssoc(CsvHeader, Rows(txs[..i], fmt), CsvRow(txs[i], fmt));
      body := body + CsvRow(txs[i], fmt);
    }
    assert txs[..|txs|] == txs;
  }

  /** One more entry adds its line at the end. */
  lemma RowsSnoc(txs: seq<Txn>, i: nat, fmt: Timestamp -> string)
    requires i < |txs|
    ensures Rows(txs[..i + 1], fmt) == Rows(txs[..i], fmt) + CsvRow(txs[i], fmt)
  {
    assert txs[..i + 1][..i] == txs[..i];
  }

  lemma {:induction false} RowsConcat(a: seq<Txn>, b: seq<Txn>, fmt: Timestamp -> string)
    ensures Rows(a + b, fmt) == Rows(a, fmt) + Rows(b, fmt)
    decreases |b|
  {
    if b == [] {
      assert a + b == a;
    } else {
      var n := |b| - 1;
      assert (a + b)[..|a + b| - 1] == a + b[..n];
      assert (a + b)[|a + b| - 1] == b[n];
      RowsConcat(a, b[..n], fmt);
      AppendAssoc(Rows(a, fmt), Rows(b[..n], fmt), CsvRow(b[n], fmt));
    }
  }

  /** The body holds exactly one line per entry, in input order: the line of entry `i` sits
      between the lines of the entries before it and those after it. */
  lemma RowOfEachEntry(txs: seq<Txn>, i: nat, fmt: Timestamp -> string)
    requires i < |txs|
    ensures Rows(txs, fmt) == Rows(txs[..i], fmt) + CsvRow(txs[i], fmt) + Rows(txs[i + 1..], fmt)
  {
    assert txs == txs[..i + 1] + txs[i + 1..];
    RowsConcat(txs[..i + 1], txs[i + 1..], fmt);
    RowsSnoc(txs, i, fmt);
  }

  predicate NoNewline(s: string) {
    forall i | 0 <= i < |s| :: s[i] != '\n'
  }

  /** Fields free of line breaks join into a text free of them. */
  lemma {:induction false} JoinFieldsNoNewline(fields: seq<string>)
    requires forall k | 0 <= k < |fields| :: Count(fields[k], '\n') == 0
    ensures Count(JoinFields(fields), '\n') == 0
  {
    if |fields| > 1 {
      JoinFieldsNoNewline(fields[1..]);
      CountAbsent(",", '\n');
      CountConcat(fields[0], ",", '\n');
      CountConcat(fields[0] + ",", JoinFields(fields[1..]), '\n');
    }
  }

  /** No text field of `t`, as written, holds a line break. */
  predicate SingleLineFields(t: Txn, fmt: Timestamp -> string) {
    && NoNewline(t.kind) && NoNewline(t.referenceText.GetOr(""))
    && (t.timestamp.Some? ==> NoNewline(fmt(t.timestamp.value)))
  }

  /** A line ends with the one line break it holds when no field text has one. */
  lemma {:induction false} RowHasOneNewline(t: Txn, fmt: Timestamp -> string)
    requires SingleLineFields(t, fmt)
    ensures Count(CsvRow(t, fmt), '\n') == 1
  {
    var fields := Fields(t, fmt);
    var ref := t.referenceText.GetOr("");
    CountAbsent(fields[0], '\n');
    CountAbsent(fields[1], '\n');
    CountAbsent(fields[2], '\n');
    CountAbsent(fields[3], '\n');
    CountAbsent(fields[4], '\n');
    CountAbsent(ref, '\n');
    CountAbsent("\"", '\n');
    EscapeCounts(ref, '\n');
    CountConcat("\"", EscapeQuotes(ref), '\n');
    CountConcat("\"" + EscapeQuotes(ref), "\"", '\n');
    JoinFieldsNoNewline(fields);
    CountConcat(JoinFields(fields), "\n", '\n');
    assert "\n"[1..] == [];
  }

  /** When no field text holds a line break, the body after the header has exactly as many
      lines as there are entries. */
  lemma {:induction false} OneLinePerEntry(txs: seq<Txn>, fmt: Timestamp -> string)
    requires forall k | 0 <= k < |txs| :: SingleLineFields(txs[k], fmt)
    ensures Count(Rows(txs, fmt), '\n') == |txs|
    decreases |txs|
  {
    if txs != [] {
      var n := |txs| - 1;
      OneLinePerEntry(txs[..n], fmt);
      RowHasOneNewline(txs[n], fmt);
      CountConcat(Rows(txs[..n], fmt), CsvRow(txs[n], fmt), '\n');
    }
  }

  /** A downloaded statement: the CSV text, or the rows the JSON body serialises. */
  datatype Download = CsvFile(body: string) | JsonFile(rows: seq<Txn>)

  /** `downloadStatement` after its days are parsed: the format check comes before the
      statement query, and the CSV branch writes the statement's rows. */
  method DownloadStatement(s: Snapshot, accountId: AccountId, email: string, w: Window, format: string, fmt: Timestamp -> string)
    returns (r: Result<Download, Error>)
    ensures ParseFormat(format).Failure? ==> r == Failure(BadRequest(""))
    ensures ParseFormat(format).Success? ==>
      (r.Success? <==> StatementEntries(s, accountId, email, w).Success?)
    ensures ParseFormat(format).Success? && r.Failure? ==> r.error == StatementEntries(s, accountId, email, w).error
    ensures r.Success? ==>
      var rows := StatementEntries(s, accountId, email, w).value;
      r.value == if ParseFormat(format) == Success(Json) then JsonFile(rows) else CsvFile(CsvHeader + Rows(rows, fmt))
  {
    var kind := ParseFormat(format);
    if kind.Failure? {
      return Failure(kind.error);
    }
    var txs := StatementEntries(s, accountId, email, w);
    if txs.Failure? {
      return Failure(txs.error);
    }
    if kind.value == Json {
      return Success(JsonFile(txs.value));
    }
    var body := WriteCsv(txs.value, fmt);
    r := Success(CsvFile(body));
  }
}
