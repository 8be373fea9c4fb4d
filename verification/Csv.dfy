// Awards as comma-separated values, and a reader of them as section 2 of RFC 4180 describes one.
module Csv {
  import opened Results
  import opened Arithmetic
  import opened Amounts

  // ---- writing ----

  predicate NeedsQuotes(c: char) {
    c == '"' || c == ',' || c == '\n' || c == '\r'
  }

  function Escaped(c: char): string {
    if c == '"' then "\"\"" else [c]
  }

  function Doubled(value: string): string {
    if value == "" then "" else Escaped(value[0]) + Doubled(value[1..])
  }

  function EscapeField(value: string): string {
    if exists i :: 0 <= i < |value| && NeedsQuotes(value[i]) then "\"" + (Doubled(value) + "\"") else value
  }

  function Row(fields: seq<string>): string {
    if fields == [] then ""
    else if |fields| == 1 then EscapeField(fields[0])
    else EscapeField(fields[0]) + ("," + Row(fields[1..]))
  }

  function Table(rows: seq<seq<string>>): string {
    if rows == [] then ""
    else if |rows| == 1 then Row(rows[0])
    else Row(rows[0]) + ("\n" + Table(rows[1..]))
  }

  // ---- reading ----

  // The inside of a quoted field: a doubled quote is one quote, a single one ends it.
  function ReadQuoted(s: string): Option<(string, string)> {
    if s == "" then None
    else if s[0] == '"' && !(|s| > 1 && s[1] == '"') then Some(("", s[1..]))
    else Prefixed(s[0], ReadQuoted(s[if s[0] == '"' then 2 else 1..]))
  }

  function Prefixed(c: char, r: Option<(string, string)>): Option<(string, string)> {
    match r
    case Some((field, rest)) => Some(([c] + field, rest))
    case None => None
  }

  function ReadPlain(s: string): (string, string) {
    if s == "" || NeedsQuotes(s[0]) then ("", s)
    else
      var (field, rest) := ReadPlain(s[1..]);
      ([s[0]] + field, rest)
  }

  function ReadField(s: string): (r: Option<(string, string)>)
    ensures r.Some? ==> |r.value.1| <= |s|
  {
    RestIsShorter(s);
    if s != "" && s[0] == '"' then RestIsShorter(s[1..]); ReadQuoted(s[1..]) else Some(ReadPlain(s))
  }

  lemma {:induction false} RestIsShorter(s: string)
    ensures ReadQuoted(s).Some? ==> |ReadQuoted(s).value.1| < |s|
    ensures |ReadPlain(s).1| <= |s|
  {
    if s != "" {
      RestIsShorter(s[1..]);
      if |s| > 1 {
        RestIsShorter(s[2..]);
      }
    }
  }

  // One record, up to the end or a line break, which stays in the rest.
  function ReadRow(s: string): (r: Option<(seq<string>, string)>)
    ensures r.Some? ==> |r.value.1| <= |s|
    decreases |s|
  {
    match ReadField(s)
    case None => None
    case Some((field, rest)) =>
      if rest == "" || rest[0] == '\n' || rest[0] == '\r' then Some(([field], rest))
      else if rest[0] == ',' then
        match ReadRow(rest[1..])
        case None => None
        case Some((fields, after)) => Some(([field] + fields, after))
      else None
  }

  function AfterBreak(s: string): (r: Option<string>)
    ensures r.Some? ==> |r.value| < |s|
  {
    if s != "" && s[0] == '\n' then Some(s[1..])
    else if |s| > 1 && s[0] == '\r' && s[1] == '\n' then Some(s[2..])
    else None
  }

  // Records separated by line breaks; the last record may or may not end with one.
  function ReadTable(s: string): Option<seq<seq<string>>>
    decreases |s|
  {
    match ReadRow(s)
    case None => None
    case Some((row, rest)) =>
      if rest == "" then Some([row])
      else
        match AfterBreak(rest)
        case None => None
        case Some(after) =>
          if after == "" then Some([row])
          else
            match ReadTable(after)
            case None => None
            case Some(rows) => Some([row] + rows)
  }

  // ---- the reader undoes the writer ----

  lemma {:induction false} OneCharacterReads(c: char, tail: string)
    ensures ReadQuoted(Escaped(c) + tail) == Prefixed(c, ReadQuoted(tail))
  {
    var s := Escaped(c) + tail;
    assert s[|Escaped(c)|..] == tail;
  }

  lemma {:induction false} QuoteEnds(rest: string)
    requires rest == "" || rest[0] != '"'
    ensures ReadQuoted("" + ("\"" + rest)) == Some(("", rest))
  {
    assert ("\"" + rest)[1..] == rest;
    assert "" + ("\"" + rest) == "\"" + rest;
  }

  lemma {:induction false} QuotedReads(value: string, rest: string)
    requires rest == "" || rest[0] != '"'
    ensures ReadQuoted(Doubled(value) + ("\"" + rest)) == Some((value, rest))
  {
    hide ReadQuoted, Escaped;
    if value == "" {
      QuoteEnds(rest);
    } else {
      var tail := Doubled(value[1..]) + ("\"" + rest);
      QuotedReads(value[1..], rest);
      OneCharacterReads(value[0], tail);
      assert Doubled(value) + ("\"" + rest) == Escaped(value[0]) + tail;
      assert value == [value[0]] + value[1..];
    }
  }

  lemma {:induction false} PlainReads(value: string, rest: string)
    requires forall i :: 0 <= i < |value| ==> !NeedsQuotes(value[i])
    requires rest == "" || NeedsQuotes(rest[0])
    ensures ReadPlain(value + rest) == (value, rest)
  {
    if value == "" {
      assert value + rest == rest;
    } else {
      assert (value + rest)[1..] == value[1..] + rest;
      PlainReads(value[1..], rest);
      assert value == [value[0]] + value[1..];
    }
  }

  lemma FieldReads(value: string, rest: string)
    requires rest == "" || (NeedsQuotes(rest[0]) && rest[0] != '"')
    ensures ReadField(EscapeField(value) + rest) == Some((value, rest))
  {
    hide ReadQuoted, ReadPlain, Doubled;
    if exists i :: 0 <= i < |value| && NeedsQuotes(value[i]) {
      var s := EscapeField(value) + rest;
      assert s == "\"" + (Doubled(value) + ("\"" + rest));
      assert s[1..] == Doubled(value) + ("\"" + rest);
      QuotedReads(value, rest);
    } else {
      PlainReads(value, rest);
      assert value != "" ==> !NeedsQuotes(value[0]) && (value + rest)[0] == value[0];
      assert value == "" ==> value + rest == rest;
    }
  }

  // No fields are written as one empty field is.
  function AtLeastOne(fields: seq<string>): seq<string> {
    if fields == [] then [""] else fields
  }

  lemma {:induction false} RowReads(fields: seq<string>, rest: string)
    requires rest == "" || rest[0] == '\n'
    ensures ReadRow(Row(fields) + rest) == Some((AtLeastOne(fields), rest))
  {
    hide ReadField, EscapeField;
    if fields == [] {
      FieldReads("", rest);
      EmptyIsPlain();
    } else if |fields| == 1 {
      FieldReads(fields[0], rest);
      assert fields == [fields[0]];
    } else {
      var after := "," + (Row(fields[1..]) + rest);
      assert Row(fields) + rest == EscapeField(fields[0]) + after;
      assert after[1..] == Row(fields[1..]) + rest;
      FieldReads(fields[0], after);
      RowReads(fields[1..], rest);
      assert fields == [fields[0]] + fields[1..];
    }
  }

  lemma EmptyIsPlain()
    ensures EscapeField("") == ""
  {
  }

  // A reader recovers exactly the fields of a row, unless there are none.
  lemma {:induction false} RowRoundTrip(fields: seq<string>)
    ensures ReadRow(Row(fields)) == Some((fields, "")) <==> fields != []
  {
    RowReads(fields, "");
    assert Row(fields) + "" == Row(fields);
  }

  // What a reader makes of a table: a final line break ends the last record and starts none.
  function AsRead(rows: seq<seq<string>>): seq<seq<string>>
    requires rows != []
  {
    if |rows| == 1 then [AtLeastOne(rows[0])]
    else if |rows| == 2 && Row(rows[1]) == "" then [AtLeastOne(rows[0])]
    else [AtLeastOne(rows[0])] + AsRead(rows[1..])
  }

  lemma {:induction false} TableReads(rows: seq<seq<string>>)
    requires rows != []
    ensures ReadTable(Table(rows)) == Some(AsRead(rows))
  {
    hide ReadRow, Row;
    if |rows| == 1 {
      RowReads(rows[0], "");
      assert Row(rows[0]) + "" == Row(rows[0]);
    } else {
      var rest := "\n" + Table(rows[1..]);
      assert rest[1..] == Table(rows[1..]);
      RowReads(rows[0], rest);
      TableReads(rows[1..]);
      TableIsEmpty(rows[1..]);
    }
  }

  lemma {:induction false} TableIsEmpty(rows: seq<seq<string>>)
    requires rows != []
    ensures Table(rows) == "" <==> |rows| == 1 && Row(rows[0]) == ""
  {
  }

  // A table reads back as its rows whenever every row has two fields or more.
  lemma {:induction false} TableRoundTrip(rows: seq<seq<string>>)
    requires rows != []
    requires forall i :: 0 <= i < |rows| ==> 2 <= |rows[i]|
    ensures ReadTable(Table(rows)) == Some(rows)
  {
    TableReads(rows);
    WideRowsRead(rows);
  }

  lemma {:induction false} WideRowsRead(rows: seq<seq<string>>)
    requires rows != []
    requires forall i :: 0 <= i < |rows| ==> 2 <= |rows[i]|
    ensures AsRead(rows) == rows
  {
    if |rows| > 1 {
      WideRowsRead(rows[1..]);
      assert rows == [rows[0]] + rows[1..];
    }
  }

  // ---- the export ----

  // Amounts arrive as the strings the index holds.
  datatype IndexedAward = IndexedAward(
    recipient: string, granted: string, released: string, tranches: nat, tranchesReleased: nat,
    mode: string, payee: string, updatedLedger: nat)

  const HEADER: seq<string> := [
    "Recipient", "Granted (stroops)", "Granted (units)", "Released (stroops)", "Released (units)",
    "Tranches", "Tranches released", "Mode", "Payee", "Updated ledger"]

  // A bigint as text.
  function IntText(n: int): string {
    if n < 0 then "-" + Digits(-n) else Digits(n)
  }

  // Stroops as decimal units; bigint division and remainder go with the sign of the dividend.
  function UnitsOf(stroops: int): string {
    var whole := Truncated(stroops, STROOPS_PER_UNIT);
    var fraction := stroops - whole * STROOPS_PER_UNIT;
    if fraction == 0 then IntText(whole)
    else IntText(whole) + ("." + StripTrailingZeros(PadStart(IntText(fraction), DECIMALS)))
  }

  // `big` is the platform's reading of a string as a bigint, which refuses what is not one.
  function StroopsToUnits(big: string -> Option<int>, stroops: string): Option<string> {
    match big(stroops)
    case Some(value) => Some(UnitsOf(value))
    case None => None
  }

  predicate Readable(big: string -> Option<int>, a: IndexedAward) {
    big(a.granted).Some? && big(a.released).Some?
  }

  function AwardRow(big: string -> Option<int>, a: IndexedAward): seq<string>
    requires Readable(big, a)
  {
    [a.recipient, a.granted, StroopsToUnits(big, a.granted).value, a.released, StroopsToUnits(big, a.released).value,
     Digits(a.tranches), Digits(a.tranchesReleased), a.mode, a.payee, Digits(a.updatedLedger)]
  }

  function AwardRows(big: string -> Option<int>, awards: seq<IndexedAward>): (rows: seq<seq<string>>)
    requires forall i :: 0 <= i < |awards| ==> Readable(big, awards[i])
    ensures |rows| == |awards|
    ensures forall i :: 0 <= i < |awards| ==> rows[i] == AwardRow(big, awards[i])
  {
    seq(|awards|, i requires 0 <= i < |awards| => AwardRow(big, awards[i]))
  }

  function Notice(indexedAt: string): seq<string> {
    ["From the advisory public index. Indexed at " + indexedAt + ".", "", "", "", "", "", "", "", "", ""]
  }

  // Nothing when some amount does not read as a bigint: the export throws.
  function AwardsToCsv(big: string -> Option<int>, awards: seq<IndexedAward>, indexedAt: string): Option<string> {
    if forall i :: 0 <= i < |awards| ==> Readable(big, awards[i])
    then Some(Table([HEADER, Notice(indexedAt)] + AwardRows(big, awards)))
    else None
  }

  // Whatever commas, quotes and line breaks the names and the index's own strings hold, an exported
  // file reads back as the header, the notice and one row an award.
  lemma {:induction false} ExportReads(big: string -> Option<int>, awards: seq<IndexedAward>, indexedAt: string)
    ensures AwardsToCsv(big, awards, indexedAt).Some? <==> forall i :: 0 <= i < |awards| ==> Readable(big, awards[i])
    ensures AwardsToCsv(big, awards, indexedAt).Some? ==>
              ReadTable(AwardsToCsv(big, awards, indexedAt).value) ==
              Some([HEADER, Notice(indexedAt)] + AwardRows(big, awards))
  {
    hide ReadTable, Table, AwardRow;
    if forall i :: 0 <= i < |awards| ==> Readable(big, awards[i]) {
      assert forall i :: 0 <= i < |awards| ==> 2 <= |AwardRow(big, awards[i])| by {
        forall i | 0 <= i < |awards|
          ensures 2 <= |AwardRow(big, awards[i])|
        {
          RowIsWide(big, awards[i]);
        }
      }
      TableRoundTrip([HEADER, Notice(indexedAt)] + AwardRows(big, awards));
    }
  }

  // A field is written as it is exactly when it holds no quote, comma or line break.
  lemma QuotedExactly(value: string)
    ensures EscapeField(value) == value <==> '"' !in value && ',' !in value && '\n' !in value && '\r' !in value
  {
    DoubledIsLonger(value);
    if c :| c in value && NeedsQuotes(c) {
      var i :| 0 <= i < |value| && value[i] == c;
      assert |value| < |EscapeField(value)|;
    }
  }

  lemma {:induction false} DoubledIsLonger(value: string)
    ensures |value| <= |Doubled(value)|
  {
    if value != "" {
      DoubledIsLonger(value[1..]);
    }
  }

  // What stands in a row of the file under the heading `name`.
  ghost predicate Under(row: seq<string>, name: string, value: string) {
    |row| == |HEADER| && forall k :: 0 <= k < |HEADER| && HEADER[k] == name ==> row[k] == value
  }

  ghost predicate Shows(big: string -> Option<int>, row: seq<string>, a: IndexedAward) {
    && Under(row, "Recipient", a.recipient)
    && Under(row, "Granted (stroops)", a.granted) && Under(row, "Released (stroops)", a.released)
    && big(a.granted).Some? && Under(row, "Granted (units)", UnitsOf(big(a.granted).value))
    && big(a.released).Some? && Under(row, "Released (units)", UnitsOf(big(a.released).value))
    && Under(row, "Tranches", Digits(a.tranches)) && Under(row, "Tranches released", Digits(a.tranchesReleased))
    && Under(row, "Mode", a.mode) && Under(row, "Payee", a.payee)
    && Under(row, "Updated ledger", Digits(a.updatedLedger))
  }

  lemma RowShows(big: string -> Option<int>, a: IndexedAward)
    requires Readable(big, a)
    ensures Shows(big, AwardRow(big, a), a)
  {
    hide UnitsOf, Digits;
  }

  // In the file as it reads back, the i-th award stands in row i + 2 with every figure under its own
  // heading.
  lemma {:induction false} ColumnsMatchHeader(big: string -> Option<int>, awards: seq<IndexedAward>, indexedAt: string, i: nat)
    requires AwardsToCsv(big, awards, indexedAt).Some? && i < |awards|
    ensures var table := ReadTable(AwardsToCsv(big, awards, indexedAt).value);
            && table.Some? && |table.value| == |awards| + 2 && |table.value[1]| == |HEADER|
            && table.value[0] == HEADER
            && table.value[1][0] == "From the advisory public index. Indexed at " + indexedAt + "."
            && Shows(big, table.value[i + 2], awards[i])
  {
    ExportReads(big, awards, indexedAt);
    RowShows(big, awards[i]);
    hide ReadTable, Table, AwardRow, Shows;
  }

  lemma RowIsWide(big: string -> Option<int>, a: IndexedAward)
    requires Readable(big, a)
    ensures |AwardRow(big, a)| == 10
  {
    hide StroopsToUnits;
  }

  lemma {:induction false} ZeroFractionStrips(k: nat)
    ensures StripTrailingZeros(Zeros(k)) == ""
  {
    if k > 0 {
      assert Zeros(k)[..k - 1] == Zeros(k - 1);
      ZeroFractionStrips(k - 1);
    }
  }

  lemma {:induction false} StrippedEmpty(s: string)
    requires AllDigits(s) && StripTrailingZeros(s) == ""
    ensures s == Zeros(|s|)
  {
    if s != [] {
      StrippedEmpty(s[..|s| - 1]);
      assert s == s[..|s| - 1] + [s[|s| - 1]];
    }
  }

  // The exact form shows no fraction exactly when there is none.
  lemma FractionShown(magnitude: nat)
    ensures StripTrailingZeros(FractionDigits(magnitude)) == "" <==> magnitude % STROOPS_PER_UNIT == 0
    ensures AllDigits(StripTrailingZeros(FractionDigits(magnitude)))
  {
    var f := FractionDigits(magnitude);
    FractionHasSevenDigits(magnitude);
    StrippedReads(f, DECIMALS);
    if magnitude % STROOPS_PER_UNIT == 0 {
      assert f == PadStart("0", DECIMALS) == Zeros(DECIMALS);
      ZeroFractionStrips(DECIMALS);
    } else if StripTrailingZeros(f) == "" {
      StrippedEmpty(f);
      ZerosValue(DECIMALS);
    }
  }

  lemma UnitsOfWhole(stroops: int)
    requires 0 <= stroops || stroops % STROOPS_PER_UNIT == 0
    ensures UnitsOf(stroops) == FormatExact(stroops)
  {
    hide StripTrailingZeros, Digits, PadStart, AllDigits, Truncated;
    TruncatedParts(stroops);
    FractionShown(Magnitude(stroops));
  }

  // Where no negative fraction is left, division toward zero splits the magnitude.
  lemma TruncatedParts(stroops: int)
    requires 0 <= stroops || stroops % STROOPS_PER_UNIT == 0
    ensures var whole, m := Truncated(stroops, STROOPS_PER_UNIT), Magnitude(stroops);
            && stroops - whole * STROOPS_PER_UNIT == m % STROOPS_PER_UNIT
            && (0 <= stroops ==> whole == m / STROOPS_PER_UNIT)
            && (stroops < 0 ==> whole == -(m / STROOPS_PER_UNIT) && 0 < m / STROOPS_PER_UNIT)
  {
  }

  // Below zero the fraction is printed with its own sign.
  lemma NegativeFraction(stroops: int) returns (whole: string, n: nat)
    requires stroops < 0 && stroops % STROOPS_PER_UNIT != 0
    ensures 0 < n
    ensures UnitsOf(stroops) == whole + ("." + StripTrailingZeros(PadStart("-" + Digits(n), DECIMALS)))
  {
    hide StripTrailingZeros, PadStart, Digits;
    whole := IntText(Truncated(stroops, STROOPS_PER_UNIT));
    n := -(stroops - Truncated(stroops, STROOPS_PER_UNIT) * STROOPS_PER_UNIT);
  }

  // That sign ends up after the point.
  lemma UnitsOfNegative(stroops: int)
    requires stroops < 0 && stroops % STROOPS_PER_UNIT != 0
    ensures exists i :: 1 <= i < |UnitsOf(stroops)| && UnitsOf(stroops)[i] == '-'
  {
    hide UnitsOf, StripTrailingZeros, PadStart, Digits;
    var whole, n := NegativeFraction(stroops);
    SignPadded(n, DECIMALS);
    var text := StripTrailingZeros(PadStart("-" + Digits(n), DECIMALS));
    var i :| 0 <= i < |text| && text[i] == '-';
    assert UnitsOf(stroops)[|whole| + 1 + i] == '-';
  }

  lemma {:induction false} SignPadded(n: nat, width: nat)
    requires 0 < n
    ensures var text := StripTrailingZeros(PadStart("-" + Digits(n), width));
            exists i :: 0 <= i < |text| && text[i] == '-'
  {
    hide Digits, StripTrailingZeros;
    var signed := "-" + Digits(n);
    var padded := PadStart(signed, width);
    var at := if |signed| < width then width - |signed| else 0;
    assert padded[at] == signed[0] == '-';
    StripKeepsSign(padded, at);
    assert StripTrailingZeros(PadStart("-" + Digits(n), width))[at] == '-';
  }

  lemma {:induction false} StripKeepsSign(s: string, at: nat)
    requires at < |s| && s[at] == '-'
    ensures at < |StripTrailingZeros(s)| && StripTrailingZeros(s)[at] == '-'
    decreases |s|
  {
    if s[|s| - 1] == '0' {
      StripKeepsSign(s[..|s| - 1], at);
    }
  }

  lemma ExactHasOneSign(stroops: int)
    ensures forall i :: 1 <= i < |FormatExact(stroops)| ==> FormatExact(stroops)[i] != '-'
  {
    var m := Magnitude(stroops);
    FractionShown(m);
    hide StripTrailingZeros, FractionDigits, Digits;
    var whole, fraction := Digits(m / STROOPS_PER_UNIT), StripTrailingZeros(FractionDigits(m));
    var tail := if fraction == "" then "" else "." + fraction;
    assert forall i :: 0 <= i < |whole| ==> IsDigit(whole[i]);
    assert forall i :: 0 <= i < |tail| ==> tail[i] == '.' || IsDigit(tail[i]);
    assert FormatExact(stroops) == Sign(stroops) + (whole + tail);
    assert forall i :: 0 <= i < |whole + tail| ==> (whole + tail)[i] != '-';
  }

  // The exported units are the exact form exactly for amounts that are not negative or are whole; a
  // positive amount then parses back to the stroop.
  lemma {:induction false} UnitsAreExact(stroops: int)
    ensures UnitsOf(stroops) == FormatExact(stroops) <==> 0 <= stroops || stroops % STROOPS_PER_UNIT == 0
    ensures 0 < stroops ==> Parse(UnitsOf(stroops)) == Ok(stroops)
  {
    hide UnitsOf, FormatExact, Parse;
    if 0 <= stroops || stroops % STROOPS_PER_UNIT == 0 {
      UnitsOfWhole(stroops);
    } else {
      UnitsOfNegative(stroops);
      ExactHasOneSign(stroops);
    }
    if 0 < stroops {
      ExactRoundTrip(stroops, "", "");
      assert "" + FormatExact(stroops) + "" == FormatExact(stroops);
    }
  }
}
