// iCalendar content lines: folding and TEXT escaping, and readers of both as sections 3.1 and 3.3.11
// of RFC 5545 describe them.
module Ics {
  import opened Results

  // ---- folding ----

  // Octets of one character in UTF-8.
  function Width(c: char): (n: nat)
    ensures 1 <= n <= 4
  {
    if c as int < 0x80 then 1 else if c as int < 0x800 then 2 else if c as int < 0x1_0000 then 3 else 4
  }

  // The octets of a character in UTF-8, section 3 of RFC 3629.
  function Utf8(c: char): seq<int> {
    var n := c as int;
    if n < 0x80 then [n]
    else if n < 0x800 then [0xC0 + n / 0x40, 0x80 + n % 0x40]
    else if n < 0x1_0000 then [0xE0 + n / 0x40 / 0x40, 0x80 + n / 0x40 % 0x40, 0x80 + n % 0x40]
    else [0xF0 + n / 0x40 / 0x40 / 0x40, 0x80 + n / 0x40 / 0x40 % 0x40, 0x80 + n / 0x40 % 0x40, 0x80 + n % 0x40]
  }

  // Reading them back: the first octet tells how many there are.
  function FromUtf8(octets: seq<int>): Option<int> {
    match |octets|
    case 1 => if 0 <= octets[0] < 0x80 then Some(octets[0]) else None
    case 2 =>
      if 0xC2 <= octets[0] < 0xE0 then Some((octets[0] - 0xC0) * 0x40 + (octets[1] - 0x80)) else None
    case 3 =>
      if 0xE0 <= octets[0] < 0xF0
      then Some(((octets[0] - 0xE0) * 0x40 + (octets[1] - 0x80)) * 0x40 + (octets[2] - 0x80)) else None
    case 4 =>
      if 0xF0 <= octets[0] < 0xF5
      then Some((((octets[0] - 0xF0) * 0x40 + (octets[1] - 0x80)) * 0x40 + (octets[2] - 0x80)) * 0x40 + (octets[3] - 0x80))
      else None
    case _ => None
  }

  // The width counted is that of the UTF-8 form, which reads back, starts as its length says and goes
  // on in octets from 0x80 to 0xBF.
  lemma WidthIsUtf8(c: char)
    ensures |Utf8(c)| == Width(c)
    ensures FromUtf8(Utf8(c)) == Some(c as int)
    ensures forall i :: 0 < i < |Utf8(c)| ==> 0x80 <= Utf8(c)[i] < 0xC0
  {
  }

  function Octets(s: string): nat {
    if s == "" then 0 else Octets(s[..|s| - 1]) + Width(s[|s| - 1])
  }

  const FIRST_LIMIT: nat := 75
  const NEXT_LIMIT: nat := 74

  // The pieces of a line, filled one after the other, given what the current piece already holds.
  function Pieces(line: string, current: string, limit: nat): seq<string> {
    if line == "" then [current]
    else if limit < Octets(current) + Width(line[0]) then [current] + Pieces(line[1..], [line[0]], NEXT_LIMIT)
    else Pieces(line[1..], current + [line[0]], limit)
  }

  function Joined(pieces: seq<string>): string {
    if pieces == [] then ""
    else if |pieces| == 1 then pieces[0]
    else pieces[0] + ("\r\n " + Joined(pieces[1..]))
  }

  function Folded(line: string): string {
    Joined(Pieces(line, "", FIRST_LIMIT))
  }

  method FoldLine(line: string) returns (text: string)
    ensures text == Folded(line)
  {
    var parts: seq<string> := [];
    var current := "";
    var currentBytes := 0;
    var limit := FIRST_LIMIT;
    var i := 0;
    hide Octets, Pieces, Joined;
    NoOctets();
    while i < |line|
      invariant 0 <= i <= |line|
      invariant currentBytes == Octets(current)
      invariant parts + Pieces(line[i..], current, limit) == Pieces(line, "", FIRST_LIMIT)
    {
      PiecesStep(line, i, current, limit);
      OctetsAppend(current, line[i]);
      OctetsAppend("", line[i]);
      var bytes := Width(line[i]);
      if currentBytes + bytes > limit {
        parts := parts + [current];
        current := "";
        currentBytes := 0;
        limit := NEXT_LIMIT;
      }
      assert "" + [line[i]] == [line[i]];
      current := current + [line[i]];
      currentBytes := currentBytes + bytes;
      i := i + 1;
    }
    PiecesEnd(current, limit);
    assert line[i..] == "";
    parts := parts + [current];
    text := Joined(parts);
  }

  lemma NoOctets()
    ensures Octets("") == 0
  {
  }

  lemma PiecesEnd(current: string, limit: nat)
    ensures Pieces("", current, limit) == [current]
  {
  }

  lemma PiecesStep(line: string, i: nat, current: string, limit: nat)
    requires i < |line|
    ensures Pieces(line[i..], current, limit) ==
            if limit < Octets(current) + Width(line[i]) then [current] + Pieces(line[i + 1..], [line[i]], NEXT_LIMIT)
            else Pieces(line[i + 1..], current + [line[i]], limit)
  {
    assert line[i..][0] == line[i] && line[i..][1..] == line[i + 1..];
  }

  // ---- unfolding ----

  predicate FoldAt(s: string, i: nat) {
    i + 2 < |s| && s[i] == '\r' && s[i + 1] == '\n' && (s[i + 2] == ' ' || s[i + 2] == '\t')
  }

  // Drops every line break followed by one space or tab.
  function Unfold(s: string): string {
    if s == "" then ""
    else if FoldAt(s, 0) then Unfold(s[3..])
    else [s[0]] + Unfold(s[1..])
  }

  predicate NoFolds(s: string) {
    forall i :: 0 <= i < |s| ==> !FoldAt(s, i)
  }

  function Concat(pieces: seq<string>): string {
    if pieces == [] then "" else pieces[0] + Concat(pieces[1..])
  }

  lemma {:induction false} PiecesConcat(line: string, current: string, limit: nat)
    ensures Pieces(line, current, limit) != []
    ensures Concat(Pieces(line, current, limit)) == current + line
    decreases |line|
  {
    if line == "" {
      assert Concat([current]) == current + Concat([]);
    } else {
      assert line == [line[0]] + line[1..];
      if limit < Octets(current) + Width(line[0]) {
        PiecesConcat(line[1..], [line[0]], NEXT_LIMIT);
        var rest := Pieces(line[1..], [line[0]], NEXT_LIMIT);
        assert ([current] + rest)[1..] == rest;
      } else {
        PiecesConcat(line[1..], current + [line[0]], limit);
        assert current + line == (current + [line[0]]) + line[1..];
      }
    }
  }

  lemma {:induction false} UnfoldPlain(s: string)
    requires NoFolds(s)
    ensures Unfold(s) == s
  {
    if s != "" {
      assert forall i :: 0 <= i < |s[1..]| && FoldAt(s[1..], i) ==> FoldAt(s, i + 1);
      assert !FoldAt(s, 0);
      UnfoldPlain(s[1..]);
    }
  }

  // A piece followed by a fold: the fold goes, the piece stays.
  lemma {:induction false} UnfoldPiece(piece: string, rest: string)
    requires NoFolds(piece)
    ensures Unfold(piece + ("\r\n " + rest)) == piece + Unfold(rest)
  {
    var s := piece + ("\r\n " + rest);
    if piece == "" {
      assert s == "\r\n " + rest;
      assert FoldAt(s, 0) && s[3..] == rest;
    } else {
      assert s[1..] == piece[1..] + ("\r\n " + rest);
      assert forall i :: 0 <= i < |piece[1..]| && FoldAt(piece[1..], i) ==> FoldAt(piece, i + 1);
      assert !FoldAt(piece, 0);
      assert !FoldAt(s, 0);
      UnfoldPiece(piece[1..], rest);
      assert piece == [piece[0]] + piece[1..];
    }
  }

  lemma NoFoldsInParts(a: string, b: string)
    requires NoFolds(a + b)
    ensures NoFolds(a) && NoFolds(b)
  {
    assert forall i :: 0 <= i < |a| && FoldAt(a, i) ==> FoldAt(a + b, i);
    assert forall i :: 0 <= i < |b| && FoldAt(b, i) ==> FoldAt(a + b, |a| + i);
  }

  lemma {:induction false} UnfoldJoined(pieces: seq<string>)
    requires NoFolds(Concat(pieces))
    ensures Unfold(Joined(pieces)) == Concat(pieces)
  {
    if pieces != [] {
      NoFoldsInParts(pieces[0], Concat(pieces[1..]));
      if |pieces| == 1 {
        UnfoldPlain(pieces[0]);
        assert Concat(pieces[1..]) == "";
      } else {
        UnfoldPiece(pieces[0], Joined(pieces[1..]));
        UnfoldJoined(pieces[1..]);
      }
    }
  }

  // Unfolding gives the line back, for every line that does not itself hold a fold.
  lemma FoldRoundTrip(line: string)
    requires NoFolds(line)
    ensures Unfold(Folded(line)) == line
  {
    PiecesConcat(line, "", FIRST_LIMIT);
    assert "" + line == line;
    UnfoldJoined(Pieces(line, "", FIRST_LIMIT));
  }

  // ---- physical lines ----

  predicate BreakAt(s: string, i: nat) {
    i + 1 < |s| && s[i] == '\r' && s[i + 1] == '\n'
  }

  predicate NoBreaks(s: string) {
    forall i :: 0 <= i < |s| ==> !BreakAt(s, i)
  }

  // The lines a text is made of, ended by line breaks.
  function Lines(s: string): (lines: seq<string>)
    ensures lines != []
  {
    if s == "" then [""]
    else if BreakAt(s, 0) then [""] + Lines(s[2..])
    else
      var rest := Lines(s[1..]);
      [[s[0]] + rest[0]] + rest[1..]
  }

  lemma {:induction false} LinesOfOne(s: string)
    requires NoBreaks(s)
    ensures Lines(s) == [s]
  {
    if s != "" {
      assert forall i :: 0 <= i < |s[1..]| && BreakAt(s[1..], i) ==> BreakAt(s, i + 1);
      assert !BreakAt(s, 0);
      LinesOfOne(s[1..]);
      assert s == [s[0]] + s[1..];
    }
  }

  lemma {:induction false} FirstLine(line: string, rest: string)
    requires NoBreaks(line)
    ensures Lines(line + ("\r\n" + rest)) == [line] + Lines(rest)
  {
    var s := line + ("\r\n" + rest);
    if line == "" {
      assert s == "\r\n" + rest;
      assert BreakAt(s, 0) && s[2..] == rest;
    } else {
      assert s[1..] == line[1..] + ("\r\n" + rest);
      assert forall i :: 0 <= i < |line[1..]| && BreakAt(line[1..], i) ==> BreakAt(line, i + 1);
      assert !BreakAt(line, 0);
      assert !BreakAt(s, 0);
      FirstLine(line[1..], rest);
      assert line == [line[0]] + line[1..];
    }
  }

  lemma NoBreaksInParts(a: string, b: string)
    requires NoBreaks(a + b)
    ensures NoBreaks(a) && NoBreaks(b)
  {
    assert forall i :: 0 <= i < |a| && BreakAt(a, i) ==> BreakAt(a + b, i);
    assert forall i :: 0 <= i < |b| && BreakAt(b, i) ==> BreakAt(a + b, |a| + i);
  }

  lemma NoBreakAfterLead(lead: string, s: string)
    requires NoBreaks(s) && (lead == "" || lead == " ")
    ensures NoBreaks(lead + s)
  {
    assert forall i :: |lead| <= i < |lead + s| && BreakAt(lead + s, i) ==> BreakAt(s, i - |lead|);
  }

  // The first physical line is the first piece, the others a space and a piece.
  function Physical(pieces: seq<string>, lead: string): seq<string> {
    if pieces == [] then [] else [lead + pieces[0]] + Physical(pieces[1..], " ")
  }

  lemma {:induction false} PhysicalLines(pieces: seq<string>, lead: string)
    requires pieces != [] && (lead == "" || lead == " ")
    requires NoBreaks(Concat(pieces))
    ensures Lines(lead + Joined(pieces)) == Physical(pieces, lead)
    decreases |pieces|
  {
    NoBreaksInParts(pieces[0], Concat(pieces[1..]));
    NoBreakAfterLead(lead, pieces[0]);
    hide Lines, NoBreaks;
    var first := lead + pieces[0];
    if |pieces| == 1 {
      assert Concat(pieces[1..]) == "";
      LinesOfOne(first);
      assert Physical(pieces[1..], " ") == [];
    } else {
      var rest := " " + Joined(pieces[1..]);
      assert lead + Joined(pieces) == first + ("\r\n" + rest);
      FirstLine(first, rest);
      PhysicalLines(pieces[1..], " ");
    }
  }

  lemma {:induction false} OctetsAppend(s: string, c: char)
    ensures Octets(s + [c]) == Octets(s) + Width(c)
  {
    assert (s + [c])[..|s|] == s;
  }

  lemma {:induction false} PiecesFit(line: string, current: string, limit: nat)
    requires Octets(current) <= limit && (limit == FIRST_LIMIT || limit == NEXT_LIMIT)
    ensures var pieces := Pieces(line, current, limit);
            && pieces != [] && Octets(pieces[0]) <= limit
            && forall i :: 1 <= i < |pieces| ==> Octets(pieces[i]) <= NEXT_LIMIT
    decreases |line|
  {
    if line != "" {
      if limit < Octets(current) + Width(line[0]) {
        OctetsAppend("", line[0]);
        assert "" + [line[0]] == [line[0]];
        PiecesFit(line[1..], [line[0]], NEXT_LIMIT);
      } else {
        OctetsAppend(current, line[0]);
        PiecesFit(line[1..], current + [line[0]], limit);
      }
    }
  }

  lemma {:induction false} OctetsConcat(a: string, b: string)
    ensures Octets(a + b) == Octets(a) + Octets(b)
    decreases |b|
  {
    if b == "" {
      assert a + b == a;
    } else {
      assert (a + b)[..|a + b| - 1] == a + b[..|b| - 1];
      OctetsConcat(a, b[..|b| - 1]);
    }
  }

  lemma {:induction false} PhysicalFit(pieces: seq<string>, lead: string)
    requires lead == "" || lead == " "
    requires pieces != [] ==> Octets(lead) + Octets(pieces[0]) <= FIRST_LIMIT
    requires forall i :: 1 <= i < |pieces| ==> Octets(pieces[i]) <= NEXT_LIMIT
    ensures forall i :: 0 <= i < |Physical(pieces, lead)| ==> Octets(Physical(pieces, lead)[i]) <= FIRST_LIMIT
    decreases |pieces|
  {
    if pieces != [] {
      OctetsConcat(lead, pieces[0]);
      OctetsAppend("", ' ');
      assert "" + [' '] == " ";
      PhysicalFit(pieces[1..], " ");
    }
  }

  // No physical line of a folded line is longer than 75 octets, and put together, less the space
  // each continuation starts with, they are the line: no character is split between two.
  lemma {:induction false} FoldedLinesFit(line: string)
    requires NoBreaks(line)
    ensures Lines(Folded(line)) == Physical(Pieces(line, "", FIRST_LIMIT), "")
    ensures Concat(Pieces(line, "", FIRST_LIMIT)) == line
    ensures forall i :: 0 <= i < |Lines(Folded(line))| ==> Octets(Lines(Folded(line))[i]) <= 75
  {
    var pieces := Pieces(line, "", FIRST_LIMIT);
    PiecesConcat(line, "", FIRST_LIMIT);
    assert "" + line == line;
    PhysicalLines(pieces, "");
    assert "" + Joined(pieces) == Joined(pieces);
    PiecesFit(line, "", FIRST_LIMIT);
    PhysicalFit(pieces, "");
  }

  lemma {:induction false} ShortStays(line: string, current: string)
    ensures Octets(current + line) <= FIRST_LIMIT ==> Pieces(line, current, FIRST_LIMIT) == [current + line]
    ensures FIRST_LIMIT < Octets(current + line) && Octets(current) <= FIRST_LIMIT ==>
              1 < |Pieces(line, current, FIRST_LIMIT)|
    decreases |line|
  {
    if line == "" {
      assert current + line == current;
    } else {
      OctetsConcat(current, line);
      OctetsConcat([line[0]], line[1..]);
      OctetsAppend("", line[0]);
      OctetsAppend(current, line[0]);
      assert "" + [line[0]] == [line[0]];
      assert line == [line[0]] + line[1..];
      assert current + line == (current + [line[0]]) + line[1..];
      ShortStays(line[1..], current + [line[0]]);
      PiecesConcat(line[1..], [line[0]], NEXT_LIMIT);
    }
  }

  // No piece has room for the character after it, within `limit` octets for the first and 74 for the
  // others, which stand behind a space.
  predicate Full(pieces: seq<string>, limit: nat) {
    |pieces| <= 1 ||
    (pieces[1] != "" && limit < Octets(pieces[0]) + Width(pieces[1][0]) && Full(pieces[1..], 74))
  }

  lemma {:induction false} PiecesFull(line: string, current: string, limit: nat)
    ensures Full(Pieces(line, current, limit), limit)
    decreases |line|
  {
    hide Octets, Width;
    if line != "" {
      if limit < Octets(current) + Width(line[0]) {
        var rest := Pieces(line[1..], [line[0]], NEXT_LIMIT);
        PiecesFull(line[1..], [line[0]], NEXT_LIMIT);
        FirstPieceStarts(line[1..], [line[0]], NEXT_LIMIT);
        assert ([current] + rest)[1..] == rest;
      } else {
        PiecesFull(line[1..], current + [line[0]], limit);
      }
    }
  }

  // A fold comes as late as it can.
  lemma {:induction false} FoldsAsLateAsPossible(line: string)
    ensures Full(Pieces(line, "", FIRST_LIMIT), 75)
  {
    PiecesFull(line, "", FIRST_LIMIT);
  }

  // Only a line that does not fit is folded.
  lemma {:induction false} FoldsOnlyLongLines(line: string)
    ensures Folded(line) == line <==> Octets(line) <= 75
  {
    ShortStays(line, "");
    assert "" + line == line;
    var pieces := Pieces(line, "", FIRST_LIMIT);
    if FIRST_LIMIT < Octets(line) {
      PiecesConcat(line, "", FIRST_LIMIT);
      JoinedIsLonger(pieces);
    }
  }

  lemma {:induction false} JoinedIsLonger(pieces: seq<string>)
    requires pieces != []
    ensures |Joined(pieces)| == |Concat(pieces)| + 3 * (|pieces| - 1)
  {
    if |pieces| == 1 {
      assert Concat(pieces[1..]) == "";
    } else {
      JoinedIsLonger(pieces[1..]);
    }
  }

  // ---- TEXT values ----

  // Every `c` of `s` replaced.
  function ReplaceChar(s: string, c: char, mark: string): string {
    if s == "" then "" else (if s[0] == c then mark else [s[0]]) + ReplaceChar(s[1..], c, mark)
  }

  // Every line break, with or without its carriage return, replaced by a backslash and an n.
  function ReplaceBreaks(s: string): string {
    if s == "" then ""
    else if BreakAt(s, 0) then "\\n" + ReplaceBreaks(s[2..])
    else (if s[0] == '\n' then "\\n" else [s[0]]) + ReplaceBreaks(s[1..])
  }

  // Backslashes first, so that the ones added later are not doubled.
  function MarkSpecials(text: string): string {
    ReplaceChar(ReplaceChar(ReplaceChar(text, '\\', "\\\\"), ';', "\\;"), ',', "\\,")
  }

  function EscapeText(text: string): string {
    ReplaceBreaks(MarkSpecials(text))
  }

  // A reader of TEXT values; any other escape is malformed.
  function ReadText(s: string): Option<string> {
    if s == "" then Some("")
    else if s[0] != '\\' then Lead(s[0], ReadText(s[1..]))
    else if |s| < 2 then None
    else if s[1] == 'n' || s[1] == 'N' then Lead('\n', ReadText(s[2..]))
    else if s[1] == '\\' || s[1] == ';' || s[1] == ',' then Lead(s[1], ReadText(s[2..]))
    else None
  }

  function Lead(c: char, rest: Option<string>): Option<string> {
    match rest
    case Some(text) => Some([c] + text)
    case None => None
  }

  // The text with every CRLF made a plain newline.
  function Normalised(text: string): string {
    if text == "" then ""
    else if BreakAt(text, 0) then "\n" + Normalised(text[2..])
    else [text[0]] + Normalised(text[1..])
  }

  predicate Special(c: char) {
    c == '\\' || c == ';' || c == ','
  }

  function Marked(c: char): string {
    if Special(c) then ['\\', c] else [c]
  }

  lemma {:induction false} ReplaceConcat(a: string, b: string, c: char, mark: string)
    ensures ReplaceChar(a + b, c, mark) == ReplaceChar(a, c, mark) + ReplaceChar(b, c, mark)
  {
    if a == "" {
      assert a + b == b;
    } else {
      assert (a + b)[1..] == a[1..] + b;
      ReplaceConcat(a[1..], b, c, mark);
    }
  }

  lemma {:induction false} ReplaceOne(x: char, c: char, mark: string)
    ensures ReplaceChar([x], c, mark) == if x == c then mark else [x]
  {
    assert [x][1..] == "";
  }

  lemma {:induction false} ReplaceTwo(x: char, y: char, c: char, mark: string)
    ensures ReplaceChar([x, y], c, mark) == (if x == c then mark else [x]) + (if y == c then mark else [y])
    ensures x != c && y != c ==> ReplaceChar([x, y], c, mark) == [x, y]
  {
    assert [x, y] == [x] + [y];
    ReplaceConcat([x], [y], c, mark);
    ReplaceOne(x, c, mark);
    ReplaceOne(y, c, mark);
  }

  // The three passes together mark one character at a time.
  lemma MarkOne(c: char)
    ensures MarkSpecials([c]) == Marked(c)
  {
    hide ReplaceChar;
    ReplaceOne(c, '\\', "\\\\");
    if c == '\\' {
      assert "\\\\" == ['\\', '\\'];
      ReplaceTwo('\\', '\\', ';', "\\;");
      ReplaceTwo('\\', '\\', ',', "\\,");
    } else {
      ReplaceOne(c, ';', "\\;");
      if c == ';' {
        assert "\\;" == ['\\', ';'];
        ReplaceTwo('\\', ';', ',', "\\,");
      } else {
        ReplaceOne(c, ',', "\\,");
      }
    }
  }

  lemma MarkConcat(a: string, b: string)
    ensures MarkSpecials(a + b) == MarkSpecials(a) + MarkSpecials(b)
  {
    hide ReplaceChar;
    ReplaceConcat(a, b, '\\', "\\\\");
    var a1, b1 := ReplaceChar(a, '\\', "\\\\"), ReplaceChar(b, '\\', "\\\\");
    ReplaceConcat(a1, b1, ';', "\\;");
    ReplaceConcat(ReplaceChar(a1, ';', "\\;"), ReplaceChar(b1, ';', "\\;"), ',', "\\,");
  }

  lemma MarkFirst(text: string)
    requires text != ""
    ensures MarkSpecials(text) == Marked(text[0]) + MarkSpecials(text[1..])
  {
    hide MarkSpecials;
    assert text == [text[0]] + text[1..];
    MarkConcat([text[0]], text[1..]);
    MarkOne(text[0]);
  }

  // The escaped form of a text, one character or line break at a time.
  lemma EscapeFirst(text: string)
    requires text != ""
    ensures BreakAt(text, 0) ==> EscapeText(text) == "\\n" + EscapeText(text[2..])
    ensures text[0] == '\n' ==> EscapeText(text) == "\\n" + EscapeText(text[1..])
    ensures !BreakAt(text, 0) && text[0] != '\n' ==> EscapeText(text) == Marked(text[0]) + EscapeText(text[1..])
  {
    var rest := MarkSpecials(text[1..]);
    MarkFirst(text);
    if BreakAt(text, 0) {
      MarkFirst(text[1..]);
      assert text[1..][1..] == text[2..];
      assert MarkSpecials(text) == "\r\n" + MarkSpecials(text[2..]);
      assert MarkSpecials(text)[2..] == MarkSpecials(text[2..]);
    } else {
      SecondCharacter(text);
      MarkedBreaks(text[0], rest);
    }
  }

  // A text that starts with no line break is not marked into one.
  lemma SecondCharacter(text: string)
    requires text != "" && !BreakAt(text, 0)
    ensures !BreakAt(MarkSpecials(text), 0)
  {
    MarkFirst(text);
    if |text| > 1 {
      MarkFirst(text[1..]);
    } else {
      assert text[1..] == "" && MarkSpecials("") == "";
    }
    hide MarkSpecials;
  }

  lemma {:induction false} MarkedBreaks(c: char, rest: string)
    requires !BreakAt(Marked(c) + rest, 0)
    ensures ReplaceBreaks(Marked(c) + rest) == (if c == '\n' then "\\n" else Marked(c)) + ReplaceBreaks(rest)
  {
    var s := Marked(c) + rest;
    if Special(c) {
      assert s[1..] == [c] + rest;
      assert s[1..][1..] == rest;
      assert !BreakAt(s[1..], 0);
      assert ReplaceBreaks(s[1..]) == [c] + ReplaceBreaks(rest);
    } else {
      assert s[1..] == rest;
    }
  }

  lemma {:induction false} ReadMarked(c: char, rest: string)
    requires c != '\n'
    ensures ReadText(Marked(c) + rest) == Lead(c, ReadText(rest))
  {
    assert (Marked(c) + rest)[|Marked(c)|..] == rest;
  }

  lemma {:induction false} ReadBreak(rest: string)
    ensures ReadText("\\n" + rest) == Lead('\n', ReadText(rest))
  {
    assert ("\\n" + rest)[2..] == rest;
  }

  // Reading an escaped text gives it back, but for CRLFs made newlines.
  lemma {:induction false} EscapeRoundTrip(text: string)
    ensures ReadText(EscapeText(text)) == Some(Normalised(text))
  {
    if text != "" {
      EscapeFirst(text);
      hide EscapeText, ReadText, Marked;
      if BreakAt(text, 0) {
        ReadBreak(EscapeText(text[2..]));
        EscapeRoundTrip(text[2..]);
      } else {
        if text[0] == '\n' {
          ReadBreak(EscapeText(text[1..]));
        } else {
          ReadMarked(text[0], EscapeText(text[1..]));
        }
        EscapeRoundTrip(text[1..]);
      }
    }
  }

  // An escaped text holds no newline at all, so whatever name it is put under it cannot end its line.
  lemma {:induction false} EscapedHasNoNewline(text: string)
    ensures '\n' !in EscapeText(text)
  {
    if text != "" {
      EscapeFirst(text);
      hide EscapeText;
      if BreakAt(text, 0) {
        EscapedHasNoNewline(text[2..]);
      } else {
        EscapedHasNoNewline(text[1..]);
      }
    }
  }

  lemma NoNewlineNoBreaks(s: string)
    requires '\n' !in s
    ensures NoBreaks(s) && NoFolds(s)
  {
  }

  // A property whose value was escaped and whose line was folded reads back whole.
  lemma {:induction false} PropertyRoundTrip(name: string, text: string)
    requires '\n' !in name
    ensures var line := Unfold(Folded(name + EscapeText(text)));
            && name <= line && ReadText(line[|name|..]) == Some(Normalised(text))
    ensures forall i :: 0 <= i < |Lines(Folded(name + EscapeText(text)))| ==>
              Octets(Lines(Folded(name + EscapeText(text)))[i]) <= FIRST_LIMIT
  {
    var line := name + EscapeText(text);
    EscapedHasNoNewline(text);
    NoNewlineNoBreaks(line);
    FoldRoundTrip(line);
    FoldedLinesFit(line);
    EscapeRoundTrip(text);
    assert line[|name|..] == EscapeText(text);
  }

  // ---- a whole file ----

  function Calendar(lines: seq<string>): string {
    if lines == [] then "" else Folded(lines[0]) + ("\r\n" + Calendar(lines[1..]))
  }

  predicate ContentLine(s: string) {
    s != "" && '\n' !in s && s[0] != ' ' && s[0] != '\t'
  }

  lemma {:induction false} UnfoldThenBreak(pieces: seq<string>, rest: string)
    requires pieces != [] && NoFolds(Concat(pieces))
    requires rest == "" || (rest[0] != ' ' && rest[0] != '\t')
    ensures Unfold(Joined(pieces) + ("\r\n" + rest)) == Concat(pieces) + ("\r\n" + Unfold(rest))
  {
    NoFoldsInParts(pieces[0], Concat(pieces[1..]));
    hide NoFolds, Unfold;
    var end := "\r\n" + rest;
    if |pieces| == 1 {
      assert Concat(pieces[1..]) == "";
      UnfoldBeforeBreak(pieces[0], rest);
      assert Concat(pieces) == pieces[0];
    } else {
      UnfoldThenBreak(pieces[1..], rest);
      UnfoldPiece(pieces[0], Joined(pieces[1..]) + end);
      Regroup(pieces[0], "\r\n ", Joined(pieces[1..]), end);
      assert Concat(pieces) + ("\r\n" + Unfold(rest)) == pieces[0] + (Concat(pieces[1..]) + ("\r\n" + Unfold(rest)));
    }
  }

  lemma Regroup(a: string, b: string, c: string, d: string)
    ensures (a + (b + c)) + d == a + (b + (c + d))
  {
  }

  lemma {:induction false} UnfoldBeforeBreak(piece: string, rest: string)
    requires NoFolds(piece)
    requires rest == "" || (rest[0] != ' ' && rest[0] != '\t')
    ensures Unfold(piece + ("\r\n" + rest)) == piece + ("\r\n" + Unfold(rest))
  {
    var s := piece + ("\r\n" + rest);
    if piece == "" {
      assert s == "\r\n" + rest;
      assert s[1..] == "\n" + rest;
      assert s[1..][1..] == rest;
      assert !FoldAt(s, 0) && !FoldAt(s[1..], 0);
    } else {
      assert s[1..] == piece[1..] + ("\r\n" + rest);
      assert forall i :: 0 <= i < |piece[1..]| && FoldAt(piece[1..], i) ==> FoldAt(piece, i + 1);
      assert !FoldAt(piece, 0);
      assert !FoldAt(s, 0);
      UnfoldBeforeBreak(piece[1..], rest);
      assert piece == [piece[0]] + piece[1..];
    }
  }

  // A file of content lines, each folded as far as needed, unfolds and splits into those lines.
  lemma {:induction false} CalendarReads(lines: seq<string>)
    requires forall i :: 0 <= i < |lines| ==> ContentLine(lines[i])
    ensures Lines(Unfold(Calendar(lines))) == lines + [""]
    ensures Calendar(lines) != "" ==> Calendar(lines)[0] != ' ' && Calendar(lines)[0] != '\t'
  {
    if lines != [] {
      hide Unfold, Lines, NoBreaks, Folded;
      var rest := Calendar(lines[1..]);
      CalendarReads(lines[1..]);
      LineUnfolds(lines[0], rest);
      FirstLine(lines[0], Unfold(rest));
      FoldedStarts(lines[0]);
      assert lines == [lines[0]] + lines[1..];
    }
  }

  lemma {:induction false} LineUnfolds(line: string, rest: string)
    requires ContentLine(line)
    requires rest == "" || (rest[0] != ' ' && rest[0] != '\t')
    ensures NoBreaks(line)
    ensures Unfold(Folded(line) + ("\r\n" + rest)) == line + ("\r\n" + Unfold(rest))
  {
    NoNewlineNoBreaks(line);
    PiecesConcat(line, "", FIRST_LIMIT);
    assert "" + line == line;
    UnfoldThenBreak(Pieces(line, "", FIRST_LIMIT), rest);
  }

  lemma FoldedStarts(line: string)
    requires line != ""
    ensures Folded(line) != "" && Folded(line)[0] == line[0]
  {
    PiecesConcat(line[1..], [line[0]], FIRST_LIMIT);
    assert "" + [line[0]] == [line[0]];
    FirstPieceStarts(line[1..], [line[0]], FIRST_LIMIT);
  }

  lemma {:induction false} FirstPieceStarts(line: string, current: string, limit: nat)
    requires current != ""
    ensures var pieces := Pieces(line, current, limit);
            pieces != [] && pieces[0] != "" && pieces[0][0] == current[0]
    decreases |line|
  {
    if line != "" && Octets(current) + Width(line[0]) <= limit {
      FirstPieceStarts(line[1..], current + [line[0]], limit);
    }
  }
}
