/** The redemptions export: the CSV printer, and a reader of section 2 of RFC 4180 (records end in a line feed). */
module OffersCsv {
  import opened Options

  datatype Redemption = Redemption(
    id: string, rideId: string, userId: string, status: string, discountAmount: string, cashbackAmount: string,
    reservedAt: string, consumedAt: Option<string>, releasedAt: Option<string>, reason: Option<string>)

  // ----- The printer -----

  function Join(parts: seq<string>, separator: string): string {
    if parts == [] then ""
    else if |parts| == 1 then parts[0]
    else parts[0] + separator + Join(parts[1..], separator)
  }

  /** Whether a quote, comma or line feed occurs. */
  predicate NeedsQuotes(s: string) { '"' in s || ',' in s || '\n' in s }

  function DoubleQuotes(s: string): string {
    if s == "" then "" else (if s[0] == '"' then "\"\"" else [s[0]]) + DoubleQuotes(s[1..])
  }

  function Text(v: Option<string>): string { if v.None? then "" else v.value }

  function CsvCell(v: Option<string>): string {
    var s := Text(v);
    if NeedsQuotes(s) then "\"" + DoubleQuotes(s) + "\"" else s
  }

  const HEAD := ["Redemption", "Ride", "Rider", "Status", "Discount", "Cashback", "Reserved at", "Consumed at",
                 "Released at", "Reason"]

  function Cells(r: Redemption): seq<Option<string>> {
    [Some(r.id), Some(r.rideId), Some(r.userId), Some(r.status), Some(r.discountAmount), Some(r.cashbackAmount),
     Some(r.reservedAt), r.consumedAt, r.releasedAt, r.reason]
  }

  function Line(cells: seq<Option<string>>): string {
    Join(seq(|cells|, i requires 0 <= i < |cells| => CsvCell(cells[i])), ",")
  }

  function RowLines(rows: seq<Redemption>): seq<string> {
    seq(|rows|, i requires 0 <= i < |rows| => Line(Cells(rows[i])))
  }

  function Table(head: seq<string>, rows: seq<Redemption>): string {
    Join([Join(head, ",")] + RowLines(rows), "\n")
  }

  function RedemptionsCsv(rows: seq<Redemption>): string { Table(HEAD, rows) }

  // ----- The reader -----

  /** A field and what follows it. */
  datatype Field = Field(text: string, rest: string)

  predicate AtEnd(s: string) { s == "" || s[0] == ',' || s[0] == '\n' }

  /** Rule 5: a field without quotes may not hold a quote. */
  function ReadPlain(s: string): (r: Option<Field>)
    ensures r.Some? ==> |r.value.rest| <= |s| && AtEnd(r.value.rest)
  {
    if AtEnd(s) then Some(Field("", s))
    else if s[0] == '"' then None
    else
      var r := ReadPlain(s[1..]);
      if r.None? then None else Some(r.value.(text := [s[0]] + r.value.text))
  }

  /** Rules 6 and 7: after the opening quote, commas and line feeds are text and a doubled quote stands for one. */
  function ReadQuoted(s: string): (r: Option<Field>)
    ensures r.Some? ==> |r.value.rest| <= |s|
  {
    if s == "" then None
    else if s[0] == '"' && (|s| == 1 || s[1] != '"') then Some(Field("", s[1..]))
    else
      var skip := if s[0] == '"' then 2 else 1;
      var r := ReadQuoted(s[skip..]);
      if r.None? then None else Some(r.value.(text := [s[0]] + r.value.text))
  }

  function ReadField(s: string): (r: Option<Field>)
    ensures r.Some? ==> |r.value.rest| <= |s| && AtEnd(r.value.rest)
  {
    if s == "" || s[0] != '"' then ReadPlain(s)
    else
      var r := ReadQuoted(s[1..]);
      if r.Some? && AtEnd(r.value.rest) then r else None
  }

  /** The fields up to the end of the record, and what follows it. */
  function ReadRecord(s: string): (r: Option<(seq<string>, string)>)
    ensures r.Some? && s != "" && r.value.1 != "" ==> |r.value.1| < |s|
    decreases |s|
  {
    var f := ReadField(s);
    if f.None? then None
    else if f.value.rest == "" then Some(([f.value.text], ""))
    else if f.value.rest[0] == '\n' then Some(([f.value.text], f.value.rest[1..]))
    else
      var r := ReadRecord(f.value.rest[1..]);
      if r.None? then None else Some(([f.value.text] + r.value.0, r.value.1))
  }

  /** Rules 1 and 2: one record a line, the last line feed optional. */
  function ReadFile(s: string): Option<seq<seq<string>>>
    decreases |s|
  {
    if s == "" then Some([]) else
    var r := ReadRecord(s);
    if r.None? then None else
    var more := ReadFile(r.value.1);
    if more.None? then None else Some([r.value.0] + more.value)
  }

  // ----- Reading back what was printed -----

  lemma {:induction false} PlainReadsBack(s: string, rest: string)
    requires !NeedsQuotes(s) && AtEnd(rest)
    ensures ReadPlain(s + rest) == Some(Field(s, rest))
  {
    if s == "" {
      assert s + rest == rest;
    } else {
      assert s[0] in s && (s + rest)[0] == s[0];
      assert (s + rest)[1..] == s[1..] + rest;
      PlainReadsBack(s[1..], rest);
      assert [s[0]] + s[1..] == s;
    }
  }

  lemma {:induction false} QuotedReadsBack(s: string, rest: string)
    requires AtEnd(rest)
    ensures ReadQuoted(DoubleQuotes(s) + "\"" + rest) == Some(Field(s, rest))
  {
    if s == "" {
      assert DoubleQuotes(s) + "\"" + rest == "\"" + rest;
    } else {
      var head := if s[0] == '"' then "\"\"" else [s[0]];
      var tail := DoubleQuotes(s[1..]) + "\"" + rest;
      assert DoubleQuotes(s) + "\"" + rest == head + tail;
      QuotedReadsBack(s[1..], rest);
      ReadQuotedChar(s[0], tail);
      assert [s[0]] + s[1..] == s;
    }
  }

  lemma ReadQuotedChar(c: char, tail: string)
    requires ReadQuoted(tail).Some?
    ensures var f := ReadQuoted(tail).value;
      ReadQuoted((if c == '"' then "\"\"" else [c]) + tail) == Some(Field([c] + f.text, f.rest))
  {
    var head := if c == '"' then "\"\"" else [c];
    assert (head + tail)[|head|..] == tail;
  }

  lemma PlainCellReadsBack(s: string, rest: string)
    requires !NeedsQuotes(s) && AtEnd(rest)
    ensures ReadField(s + rest) == Some(Field(s, rest))
  {
    PlainReadsBack(s, rest);
    if s == "" {
      assert s + rest == rest;
    } else {
      assert s[0] in s && (s + rest)[0] == s[0];
    }
  }

  lemma QuotedCellReadsBack(s: string, rest: string)
    requires AtEnd(rest)
    ensures ReadField("\"" + DoubleQuotes(s) + "\"" + rest) == Some(Field(s, rest))
  {
    var inner := DoubleQuotes(s) + "\"" + rest;
    var printed := "\"" + DoubleQuotes(s) + "\"" + rest;
    assert printed[0] == '"' && printed[1..] == inner;
    QuotedReadsBack(s, rest);
  }

  lemma CellReadsBack(v: Option<string>, rest: string)
    requires AtEnd(rest)
    ensures ReadField(CsvCell(v) + rest) == Some(Field(Text(v), rest))
  {
    if NeedsQuotes(Text(v)) { QuotedCellReadsBack(Text(v), rest); } else { PlainCellReadsBack(Text(v), rest); }
  }

  function Texts(cells: seq<Option<string>>): seq<string> {
    seq(|cells|, i requires 0 <= i < |cells| => Text(cells[i]))
  }

  lemma LineSplits(cells: seq<Option<string>>)
    requires |cells| > 1
    ensures Line(cells) == CsvCell(cells[0]) + "," + Line(cells[1..])
  {
    var printed := seq(|cells|, i requires 0 <= i < |cells| => CsvCell(cells[i]));
    assert printed[1..] == seq(|cells[1..]|, i requires 0 <= i < |cells[1..]| => CsvCell(cells[1..][i]));
  }

  lemma TextsSplit(cells: seq<Option<string>>)
    requires cells != []
    ensures Texts(cells) == [Text(cells[0])] + Texts(cells[1..])
  {
  }

  lemma LineOfOne(v: Option<string>)
    ensures Line([v]) == CsvCell(v) && Texts([v]) == [Text(v)]
  {
  }

  lemma {:induction false} LineReadsBack(cells: seq<Option<string>>, rest: string)
    requires cells != [] && (rest == "" || rest[0] == '\n')
    ensures ReadRecord(Line(cells) + rest) == Some((Texts(cells), if rest == "" then "" else rest[1..]))
    decreases |cells|
  {
    var v := cells[0];
    if |cells| == 1 {
      assert cells == [v];
      LineOfOne(v);
      LastField(v, rest);
    } else {
      LineSplits(cells);
      TextsSplit(cells);
      LineReadsBack(cells[1..], rest);
      FieldThenRecord(v, Line(cells[1..]) + rest);
      Regroup(CsvCell(v), ",", Line(cells[1..]), rest);
    }
  }

  lemma LastField(v: Option<string>, rest: string)
    requires rest == "" || rest[0] == '\n'
    ensures ReadRecord(CsvCell(v) + rest) == Some(([Text(v)], if rest == "" then "" else rest[1..]))
  {
    CellReadsBack(v, rest);
  }

  lemma Regroup(a: string, b: string, c: string, d: string)
    ensures a + b + c + d == a + (b + (c + d)) && a + (b + c) + d == a + (b + (c + d))
  {
  }

  lemma FieldThenRecord(v: Option<string>, record: string)
    requires ReadRecord(record).Some?
    ensures var (texts, rest) := ReadRecord(record).value;
      ReadRecord(CsvCell(v) + ("," + record)) == Some(([Text(v)] + texts, rest))
  {
    CellReadsBack(v, "," + record);
    assert ("," + record)[1..] == record;
  }

  function Lines(records: seq<seq<Option<string>>>): seq<string> {
    seq(|records|, i requires 0 <= i < |records| => Line(records[i]))
  }

  function AllTexts(records: seq<seq<Option<string>>>): seq<seq<string>> {
    seq(|records|, i requires 0 <= i < |records| => Texts(records[i]))
  }

  lemma RecordThenFile(cells: seq<Option<string>>, file: string)
    requires |cells| > 1 && ReadFile(file).Some?
    ensures ReadFile(Line(cells) + ("\n" + file)) == Some([Texts(cells)] + ReadFile(file).value)
  {
    LineSplits(cells);
    LineReadsBack(cells, "\n" + file);
    assert ("\n" + file)[1..] == file;
  }

  lemma LastRecord(cells: seq<Option<string>>)
    requires |cells| > 1
    ensures ReadFile(Line(cells)) == Some([Texts(cells)])
  {
    LineSplits(cells);
    LineReadsBack(cells, "");
    assert Line(cells) + "" == Line(cells);
    assert [Texts(cells)] + [] == [Texts(cells)];
  }

  lemma FileSplits(records: seq<seq<Option<string>>>)
    requires records != []
    ensures AllTexts(records) == [Texts(records[0])] + AllTexts(records[1..])
    ensures |records| == 1 ==> Join(Lines(records), "\n") == Line(records[0])
    ensures |records| > 1 ==>
      Join(Lines(records), "\n") == Line(records[0]) + ("\n" + Join(Lines(records[1..]), "\n"))
  {
    assert Lines(records)[1..] == Lines(records[1..]);
    if |records| > 1 {
      assert Line(records[0]) + "\n" + Join(Lines(records[1..]), "\n")
          == Line(records[0]) + ("\n" + Join(Lines(records[1..]), "\n"));
    }
  }

  /** Any table whose records have at least two cells reads back cell for cell. */
  lemma {:induction false} FileReadsBack(records: seq<seq<Option<string>>>)
    requires forall i :: 0 <= i < |records| ==> |records[i]| > 1
    ensures ReadFile(Join(Lines(records), "\n")) == Some(AllTexts(records))
    decreases |records|
  {
    if records != [] {
      FileSplits(records);
      if |records| == 1 {
        LastRecord(records[0]);
        assert [Texts(records[0])] + AllTexts(records[1..]) == [Texts(records[0])];
      } else {
        FileReadsBack(records[1..]);
        RecordThenFile(records[0], Join(Lines(records[1..]), "\n"));
      }
    } else {
      assert Lines(records) == [] && AllTexts(records) == [];
    }
  }

  function Present(s: seq<string>): seq<Option<string>> { seq(|s|, i requires 0 <= i < |s| => Some(s[i])) }

  function Rows(rows: seq<Redemption>): seq<seq<Option<string>>> {
    seq(|rows|, i requires 0 <= i < |rows| => Cells(rows[i]))
  }

  /** No column title needs quotes, so the header prints like any other record. */
  lemma PlainLine(s: seq<string>)
    requires forall i :: 0 <= i < |s| ==> !NeedsQuotes(s[i])
    ensures Line(Present(s)) == Join(s, ",") && Texts(Present(s)) == s
  {
    var cells := Present(s);
    assert seq(|cells|, i requires 0 <= i < |cells| => CsvCell(cells[i])) == s;
  }

  lemma TitlesArePlain()
    ensures !NeedsQuotes("Redemption") && !NeedsQuotes("Ride") && !NeedsQuotes("Rider") && !NeedsQuotes("Status")
  {
  }

  lemma AmountsArePlain()
    ensures !NeedsQuotes("Discount") && !NeedsQuotes("Cashback") && !NeedsQuotes("Reason")
  {
  }

  lemma TimesArePlain()
    ensures !NeedsQuotes("Reserved at") && !NeedsQuotes("Consumed at") && !NeedsQuotes("Released at")
  {
  }

  lemma HeadIsPlain()
    ensures |HEAD| == 10 && forall k :: 0 <= k < |HEAD| ==> !NeedsQuotes(HEAD[k])
  {
    TitlesArePlain();
    AmountsArePlain();
    TimesArePlain();
    TenArePlain(HEAD);
  }

  lemma TenArePlain(s: seq<string>)
    requires |s| == 10
    requires !NeedsQuotes(s[0]) && !NeedsQuotes(s[1]) && !NeedsQuotes(s[2]) && !NeedsQuotes(s[3]) && !NeedsQuotes(s[4])
    requires !NeedsQuotes(s[5]) && !NeedsQuotes(s[6]) && !NeedsQuotes(s[7]) && !NeedsQuotes(s[8]) && !NeedsQuotes(s[9])
    ensures forall k :: 0 <= k < |s| ==> !NeedsQuotes(s[k])
  {
  }

  lemma LinesJoin(a: seq<seq<Option<string>>>, b: seq<seq<Option<string>>>)
    ensures Lines(a + b) == Lines(a) + Lines(b) && AllTexts(a + b) == AllTexts(a) + AllTexts(b)
  {
  }

  lemma LinesOfOne(cells: seq<Option<string>>)
    ensures Lines([cells]) == [Line(cells)] && AllTexts([cells]) == [Texts(cells)]
  {
  }

  lemma RowsPrint(rows: seq<Redemption>)
    ensures Lines(Rows(rows)) == RowLines(rows)
  {
  }

  lemma TableSplits(head: seq<string>, rows: seq<Redemption>)
    requires forall i :: 0 <= i < |head| ==> !NeedsQuotes(head[i])
    ensures Table(head, rows) == Join(Lines([Present(head)] + Rows(rows)), "\n")
    ensures AllTexts([Present(head)] + Rows(rows)) == [head] + AllTexts(Rows(rows))
  {
    PlainLine(head);
    LinesOfOne(Present(head));
    RowsPrint(rows);
    LinesJoin([Present(head)], Rows(rows));
  }

  lemma TableReadsBack(head: seq<string>, rows: seq<Redemption>)
    requires |head| > 1 && forall i :: 0 <= i < |head| ==> !NeedsQuotes(head[i])
    ensures ReadFile(Table(head, rows)) == Some([head] + AllTexts(Rows(rows)))
  {
    var records := [Present(head)] + Rows(rows);
    TableSplits(head, rows);
    forall i | 0 <= i < |records| ensures |records[i]| > 1 {
      if i > 0 { assert records[i] == Cells(rows[i - 1]); }
    }
    FileReadsBack(records);
  }

  /** A missing value is an empty cell. */
  ghost predicate IsCell(text: string, v: Option<string>) {
    match v
    case None => text == ""
    case Some(t) => text == t
  }

  ghost predicate AreTitles(cells: seq<string>) {
    cells == ["Redemption", "Ride", "Rider", "Status", "Discount", "Cashback", "Reserved at", "Consumed at",
              "Released at", "Reason"]
  }

  lemma HeadSays()
    ensures AreTitles(HEAD)
  {
  }

  /** The ten columns of a redemption. */
  ghost predicate IsRecord(cells: seq<string>, r: Redemption) {
    && |cells| == 10
    && cells[0] == r.id && cells[1] == r.rideId && cells[2] == r.userId && cells[3] == r.status
    && cells[4] == r.discountAmount && cells[5] == r.cashbackAmount && cells[6] == r.reservedAt
    && IsCell(cells[7], r.consumedAt) && IsCell(cells[8], r.releasedAt) && IsCell(cells[9], r.reason)
  }

  ghost predicate AreRecords(records: seq<seq<string>>, rows: seq<Redemption>) {
    |records| == |rows| && forall i :: 0 <= i < |rows| ==> IsRecord(records[i], rows[i])
  }

  /** The export reads back as the column titles and a record for every row, in order. */
  lemma ExportReadsBack(rows: seq<Redemption>)
    ensures var file := ReadFile(RedemptionsCsv(rows));
      file.Some? && file.value != [] && AreTitles(file.value[0]) && AreRecords(file.value[1..], rows)
  {
    HeadIsPlain();
    HeadSays();
    TableReadsRecords(HEAD, rows);
  }

  lemma TableReadsRecords(head: seq<string>, rows: seq<Redemption>)
    requires |head| > 1 && forall i :: 0 <= i < |head| ==> !NeedsQuotes(head[i])
    ensures var file := ReadFile(Table(head, rows));
      file.Some? && file.value != [] && file.value[0] == head && AreRecords(file.value[1..], rows)
  {
    TableReadsBack(head, rows);
    RecordsOf(rows);
    assert ([head] + AllTexts(Rows(rows)))[1..] == AllTexts(Rows(rows));
  }

  lemma RecordsOf(rows: seq<Redemption>)
    ensures AreRecords(AllTexts(Rows(rows)), rows)
  {
    forall i | 0 <= i < |rows| ensures IsRecord(AllTexts(Rows(rows))[i], rows[i]) { RecordOf(rows[i]); }
  }

  lemma RecordOf(r: Redemption)
    ensures IsRecord(Texts(Cells(r)), r)
  {
  }

  lemma {:induction false} QuotesDoubled(s: string)
    requires '"' !in s
    ensures DoubleQuotes(s) == s
  {
    if s != "" { QuotesDoubled(s[1..]); }
  }

  /** A cell is printed as it is unless it holds a quote, comma or line feed; then it stands in quotes, and without a
      quote of its own it is otherwise unchanged. */
  lemma QuotedOnlyWhenNeeded(v: string)
    ensures '"' !in v && ',' !in v && '\n' !in v ==> CsvCell(Some(v)) == v
    ensures '"' in v || ',' in v || '\n' in v ==>
      |CsvCell(Some(v))| >= 2 && CsvCell(Some(v))[0] == '"' && CsvCell(Some(v))[|CsvCell(Some(v))| - 1] == '"'
    ensures '"' !in v && (',' in v || '\n' in v) ==> CsvCell(Some(v)) == "\"" + v + "\""
  {
    if '"' !in v { QuotesDoubled(v); }
  }
}
