// Amounts as text: printing stroops for people, and reading what people type.
module Amounts {
  import opened Results
  import opened Arithmetic

  const DECIMALS: nat := 7

  datatype AmountError =
    | BadDecimals | Empty | Negative | MissingWhole | NotANumber | MissingFraction | TooFine | NotPositive

  // ---- digits ----

  function Pow10(k: nat): (p: nat)
    ensures 0 < p
  {
    if k == 0 then 1 else 10 * Pow10(k - 1)
  }

  const STROOPS_PER_UNIT: nat := 10_000_000

  predicate IsDigit(c: char) { '0' <= c <= '9' }

  predicate AllDigits(s: string) {
    forall i :: 0 <= i < |s| ==> IsDigit(s[i])
  }

  // The number a string of digits writes down.
  function Value(s: string): nat
    requires AllDigits(s)
  {
    if s == [] then 0 else Value(s[..|s| - 1]) * 10 + (s[|s| - 1] as int - '0' as int)
  }

  function Digits(n: nat): (s: string)
    ensures s != [] && AllDigits(s)
  {
    var last := [('0' as int + n % 10) as char];
    if n < 10 then last else Digits(n / 10) + last
  }

  function Zeros(k: nat): (s: string)
    ensures |s| == k && AllDigits(s)
  {
    seq(k, i => '0')
  }

  function PadStart(s: string, width: nat): string {
    if |s| < width then Zeros(width - |s|) + s else s
  }

  function PadEnd(s: string, width: nat): string {
    if |s| < width then s + Zeros(width - |s|) else s
  }

  function StripTrailingZeros(s: string): (r: string)
    ensures |r| <= |s| && s[..|r|] == r
  {
    if s != [] && s[|s| - 1] == '0' then StripTrailingZeros(s[..|s| - 1]) else s
  }

  // ---- printing ----

  // A comma before each position inside the number that has a positive multiple of three digits
  // after it.
  function GroupFrom(s: string, i: nat): string
    requires i <= |s|
    decreases |s| - i
  {
    if i == |s| then []
    else (if 0 < i && (|s| - i) % 3 == 0 then "," else "") + [s[i]] + GroupFrom(s, i + 1)
  }

  function Group(n: nat): string {
    GroupFrom(Digits(n), 0)
  }

  function Sign(stroops: int): string {
    if stroops < 0 then "-" else ""
  }

  function Magnitude(stroops: int): nat {
    if stroops < 0 then -stroops else stroops
  }

  function FractionDigits(magnitude: nat): string {
    PadStart(Digits(magnitude % STROOPS_PER_UNIT), DECIMALS)
  }

  function FormatAmount(stroops: int, decimals: int, grouped: bool, asset: string): Result<string, AmountError> {
    if decimals < 0 || DECIMALS < decimals then Err(BadDecimals)
    else
      var whole := Magnitude(stroops) / STROOPS_PER_UNIT;
      var fraction := FractionDigits(Magnitude(stroops));
      FractionHasSevenDigits(Magnitude(stroops));
      var body := (if grouped then Group(whole) else Digits(whole)) + if 0 < decimals then "." + fraction[..decimals] else "";
      Ok(Sign(stroops) + body + if asset == "" then "" else " " + asset)
  }

  function FormatExact(stroops: int): string {
    var whole := Magnitude(stroops) / STROOPS_PER_UNIT;
    var fraction := StripTrailingZeros(FractionDigits(Magnitude(stroops)));
    Sign(stroops) + Digits(whole) + if fraction == "" then "" else "." + fraction
  }

  // ---- reading ----

  // What the host's `trim` takes off either end.
  predicate IsSpace(c: char) {
    || c in {'\t', '\n', '\U{0B}', '\U{0C}', '\r', ' ', '\U{A0}', '\U{1680}', '\U{2028}', '\U{2029}',
             '\U{202F}', '\U{205F}', '\U{3000}', '\U{FEFF}'}
    || '\U{2000}' <= c <= '\U{200A}'
  }

  predicate AllSpace(s: string) {
    forall i :: 0 <= i < |s| ==> IsSpace(s[i])
  }

  function TrimStart(s: string): string {
    if s != [] && IsSpace(s[0]) then TrimStart(s[1..]) else s
  }

  function TrimEnd(s: string): string {
    if s != [] && IsSpace(s[|s| - 1]) then TrimEnd(s[..|s| - 1]) else s
  }

  function Trim(s: string): string {
    TrimEnd(TrimStart(s))
  }

  // The first place `c` occurs, or -1.
  function IndexOf(s: string, c: char): (at: int)
    ensures -1 <= at < |s|
    ensures 0 <= at ==> s[at] == c
    ensures forall i :: 0 <= i < (if at == -1 then |s| else at) ==> s[i] != c
  {
    if s == [] then -1
    else if s[0] == c then 0
    else
      var rest := IndexOf(s[1..], c);
      assert forall i :: 0 < i < |s| ==> s[i] == s[1..][i - 1];
      if rest == -1 then -1 else rest + 1
  }

  // One to three digits, then any number of groups of a comma and three digits.
  predicate IsGrouped(s: string) {
    if |s| <= 3 then s != [] && AllDigits(s)
    else s[|s| - 4] == ',' && AllDigits(s[|s| - 3..]) && IsGrouped(s[..|s| - 4])
  }

  function WithoutCommas(s: string): string {
    if s == [] then [] else WithoutCommas(s[..|s| - 1]) + if s[|s| - 1] == ',' then [] else [s[|s| - 1]]
  }

  predicate IsWhole(s: string) {
    (s != [] && AllDigits(s)) || IsGrouped(s)
  }

  function ReadWhole(s: string): nat
    requires IsWhole(s)
  {
    OnlyDigitsLeft(s);
    Value(WithoutCommas(s))
  }

  // What is on either side of the first dot, or no fraction.
  function Split(trimmed: string): (string, Option<string>) {
    var dot := IndexOf(trimmed, '.');
    if dot == -1 then (trimmed, None) else (trimmed[..dot], Some(trimmed[dot + 1..]))
  }

  function ParseParts(whole: string, fraction: Option<string>): Result<int, AmountError> {
    if whole == "" then Err(MissingWhole)
    else
      :- Need(IsWhole(whole), NotANumber);
      :- Need(fraction.Some? ==> fraction.value != "", MissingFraction);
      :- Need(fraction.Some? ==> AllDigits(fraction.value), NotANumber);
      :- Need(fraction.Some? ==> |fraction.value| <= DECIMALS, TooFine);
      var stroops := ReadWhole(whole) * STROOPS_PER_UNIT +
                     Value(if fraction.None? then "0" else PadEnd(fraction.value, DECIMALS));
      :- Need(stroops != 0, NotPositive);
      Ok(stroops)
  }

  function Parse(input: string): Result<int, AmountError> {
    var trimmed := Trim(input);
    :- Need(trimmed != "", Empty);
    :- Need(trimmed[0] != '-', Negative);
    ParseParts(Split(trimmed).0, Split(trimmed).1)
  }

  // ---- what digits write down ----

  lemma {:induction false} OnlyDigitsLeft(s: string)
    requires IsWhole(s)
    ensures AllDigits(WithoutCommas(s))
    decreases |s|
  {
    if |s| > 3 && !AllDigits(s) {
      var n := |s|;
      OnlyDigitsLeft(s[..n - 4]);
      assert s[..n - 3] == s[..n - 4] + [','];
      LastThree(s);
    } else {
      NoCommas(s);
    }
  }

  lemma {:induction false} NoCommas(s: string)
    requires AllDigits(s)
    ensures WithoutCommas(s) == s
  {
    if s != [] {
      NoCommas(s[..|s| - 1]);
    }
  }

  lemma {:induction false} WithoutCommasConcat(a: string, b: string)
    ensures WithoutCommas(a + b) == WithoutCommas(a) + WithoutCommas(b)
    decreases |b|
  {
    if b == [] {
      assert a + b == a;
    } else {
      assert (a + b)[..|a + b| - 1] == a + b[..|b| - 1];
      WithoutCommasConcat(a, b[..|b| - 1]);
    }
  }

  lemma {:induction false} LastThree(s: string)
    requires |s| > 3 && s[|s| - 4] == ',' && AllDigits(s[|s| - 3..])
    ensures WithoutCommas(s) == WithoutCommas(s[..|s| - 4]) + s[|s| - 3..]
  {
    var n := |s|;
    assert s == (s[..n - 4] + [',']) + s[n - 3..];
    WithoutCommasConcat(s[..n - 4] + [','], s[n - 3..]);
    WithoutCommasConcat(s[..n - 4], [',']);
    NoCommas(s[n - 3..]);
  }

  lemma AddDigit(a: int, p: int, b: int, d: int)
    ensures (a * p + b) * 10 + d == a * (10 * p) + (b * 10 + d)
  {
  }

  lemma {:induction false} ValueConcat(a: string, b: string)
    requires AllDigits(a) && AllDigits(b)
    ensures AllDigits(a + b) && Value(a + b) == Value(a) * Pow10(|b|) + Value(b)
    decreases |b|
  {
    if b == [] {
      assert a + b == a;
    } else {
      var n := |b| - 1;
      assert (a + b)[..|a + b| - 1] == a + b[..n];
      ValueConcat(a, b[..n]);
      AddDigit(Value(a), Pow10(n), Value(b[..n]), b[n] as int - '0' as int);
    }
  }

  lemma {:induction false} ValueBounded(s: string)
    requires AllDigits(s)
    ensures Value(s) < Pow10(|s|)
  {
    if s != [] {
      ValueBounded(s[..|s| - 1]);
    }
  }

  lemma {:induction false} DigitsValue(n: nat)
    ensures Value(Digits(n)) == n
  {
    if n >= 10 {
      DigitsValue(n / 10);
    }
    assert Digits(n)[..|Digits(n)| - 1] == if n < 10 then [] else Digits(n / 10);
  }

  lemma {:induction false} DigitsWidth(n: nat, k: nat)
    requires n < Pow10(k) && 0 < k
    ensures |Digits(n)| <= k
    decreases k
  {
    if n >= 10 {
      DigitsWidth(n / 10, k - 1);
    }
  }

  lemma {:induction false} ZerosValue(k: nat)
    ensures Value(Zeros(k)) == 0
  {
    if k > 0 {
      assert Zeros(k)[..k - 1] == Zeros(k - 1);
      ZerosValue(k - 1);
    }
  }

  lemma TenMillion()
    ensures Pow10(DECIMALS) == STROOPS_PER_UNIT
  {
    assert Pow10(3) == 1000;
  }

  lemma FractionHasSevenDigits(magnitude: nat)
    ensures var f := FractionDigits(magnitude);
            |f| == DECIMALS && AllDigits(f) && Value(f) == magnitude % STROOPS_PER_UNIT
  {
    var n := magnitude % STROOPS_PER_UNIT;
    TenMillion();
    DigitsWidth(n, DECIMALS);
    DigitsValue(n);
    ZerosValue(DECIMALS - |Digits(n)|);
    ValueConcat(Zeros(DECIMALS - |Digits(n)|), Digits(n));
  }

  // ---- reading back what is well formed ----

  lemma {:induction false} TrimStartPadded(before: string, text: string)
    requires AllSpace(before) && text != [] && !IsSpace(text[0])
    ensures TrimStart(before + text) == text
  {
    if before == [] {
      assert before + text == text;
    } else {
      assert (before + text)[1..] == before[1..] + text;
      TrimStartPadded(before[1..], text);
    }
  }

  lemma {:induction false} TrimEndPadded(text: string, after: string)
    requires AllSpace(after) && text != [] && !IsSpace(text[|text| - 1])
    ensures TrimEnd(text + after) == text
    decreases |after|
  {
    if after == [] {
      assert text + after == text;
    } else {
      assert (text + after)[..|text + after| - 1] == text + after[..|after| - 1];
      TrimEndPadded(text, after[..|after| - 1]);
    }
  }

  lemma TrimPadded(before: string, text: string, after: string)
    requires AllSpace(before) && AllSpace(after)
    requires text != [] && !IsSpace(text[0]) && !IsSpace(text[|text| - 1])
    ensures Trim(before + text + after) == text
  {
    assert before + text + after == before + (text + after);
    TrimStartPadded(before, text + after);
    TrimEndPadded(text, after);
  }

  // A number as it may be typed: whole digits, grouped or not, and at most seven decimals.
  ghost predicate Typed(whole: string, fraction: string) {
    IsWhole(whole) && AllDigits(fraction) && |fraction| <= DECIMALS
  }

  function Text(whole: string, fraction: string): string {
    whole + if fraction == "" then "" else "." + fraction
  }

  lemma {:induction false} WholeCharacters(s: string)
    requires IsWhole(s)
    ensures s != [] && IsDigit(s[0]) && IsDigit(s[|s| - 1])
    ensures forall i :: 0 <= i < |s| ==> IsDigit(s[i]) || s[i] == ','
  {
    if !AllDigits(s) && |s| > 3 {
      var n := |s|;
      WholeCharacters(s[..n - 4]);
      assert s == s[..n - 4] + [','] + s[n - 3..];
    }
  }

  lemma SplitText(whole: string, fraction: string)
    requires IsWhole(whole)
    ensures Split(Text(whole, fraction)) == (whole, if fraction == "" then None else Some(fraction))
  {
    WholeCharacters(whole);
    var text := Text(whole, fraction);
    var at := IndexOf(text, '.');
    assert forall i :: 0 <= i < |whole| ==> text[i] != '.';
    if fraction != "" {
      assert text[|whole|] == '.';
      assert text[..|whole|] == whole && text[|whole| + 1..] == fraction;
    } else {
      assert text == whole;
    }
  }

  lemma SplitJoins(trimmed: string)
    requires var (whole, fraction) := Split(trimmed); fraction != Some("")
    ensures var (whole, fraction) := Split(trimmed);
            trimmed == Text(whole, if fraction.Some? then fraction.value else "")
  {
  }

  function Amount(whole: string, fraction: string): int
    requires Typed(whole, fraction)
  {
    ReadWhole(whole) * STROOPS_PER_UNIT + Value(PadEnd(fraction, DECIMALS))
  }

  lemma TextEnds(whole: string, fraction: string)
    requires Typed(whole, fraction)
    ensures var text := Text(whole, fraction);
            text != [] && IsDigit(text[0]) && IsDigit(text[|text| - 1])
  {
    WholeCharacters(whole);
    assert Text(whole, fraction)[|Text(whole, fraction)| - 1] ==
           if fraction == "" then whole[|whole| - 1] else fraction[|fraction| - 1];
  }

  lemma PartsRead(whole: string, fraction: string)
    requires Typed(whole, fraction)
    ensures ParseParts(whole, if fraction == "" then None else Some(fraction)) ==
            if Amount(whole, fraction) == 0 then Err(NotPositive) else Ok(Amount(whole, fraction))
  {
    WholeCharacters(whole);
    hide IsWhole, ReadWhole;
    if fraction == "" {
      ZerosValue(DECIMALS);
      assert PadEnd(fraction, DECIMALS) == Zeros(DECIMALS);
      assert Value("0") == 0;
    }
  }

  lemma ParseTrimmed(input: string, whole: string, fraction: string)
    requires Typed(whole, fraction) && Trim(input) == Text(whole, fraction)
    ensures Parse(input) ==
            if Amount(whole, fraction) == 0 then Err(NotPositive) else Ok(Amount(whole, fraction))
  {
    TextEnds(whole, fraction);
    SplitText(whole, fraction);
    PartsRead(whole, fraction);
    hide Trim, Split, ParseParts, IsWhole, Amount, Text;
  }

  // Whatever spaces surround it, a well-formed number reads as what its digits write down.
  lemma ParseTyped(before: string, whole: string, fraction: string, after: string)
    requires AllSpace(before) && AllSpace(after)
    requires Typed(whole, fraction)
    ensures Parse(before + Text(whole, fraction) + after) ==
            if Amount(whole, fraction) == 0 then Err(NotPositive) else Ok(Amount(whole, fraction))
  {
    TextEnds(whole, fraction);
    TrimPadded(before, Text(whole, fraction), after);
    hide Trim, Parse, Amount, Typed;
    ParseTrimmed(before + Text(whole, fraction) + after, whole, fraction);
  }

  // An input is accepted exactly when, trimmed, it is such a number and not zero: digits are never
  // regrouped, rounded or dropped.
  lemma ParsesExactly(input: string)
    ensures Parse(input).Ok? <==>
            exists whole, fraction ::
              Typed(whole, fraction) && Trim(input) == Text(whole, fraction) && Amount(whole, fraction) != 0
    ensures Parse(input).Ok? ==> 0 < Parse(input).value
  {
    if Parse(input).Ok? {
      AcceptedIsTyped(input);
    }
    if whole, fraction :|
      Typed(whole, fraction) && Trim(input) == Text(whole, fraction) && Amount(whole, fraction) != 0
    {
      ParseTrimmed(input, whole, fraction);
    }
  }

  lemma PartsAccepted(whole: string, fraction: Option<string>)
    requires ParseParts(whole, fraction).Ok?
    ensures fraction != Some("")
    ensures var f := if fraction.Some? then fraction.value else "";
            && Typed(whole, f) && Amount(whole, f) != 0 && Amount(whole, f) == ParseParts(whole, fraction).value
            && 0 < Amount(whole, f)
  {
    hide IsWhole, ReadWhole;
    if fraction.None? {
      ZerosValue(DECIMALS);
      assert PadEnd("", DECIMALS) == Zeros(DECIMALS);
      assert Value("0") == 0;
    }
  }

  lemma AcceptedIsTyped(input: string)
    requires Parse(input).Ok?
    ensures exists whole, fraction ::
              Typed(whole, fraction) && Trim(input) == Text(whole, fraction) && Amount(whole, fraction) != 0
    ensures 0 < Parse(input).value
  {
    var (whole, fraction) := Split(Trim(input));
    PartsAccepted(whole, fraction);
    SplitJoins(Trim(input));
    hide Trim, Split, ParseParts, Amount, Typed, Text;
    var f := if fraction.Some? then fraction.value else "";
    assert Typed(whole, f) && Trim(input) == Text(whole, f) && Amount(whole, f) != 0;
  }

  // ---- grouping ----

  lemma {:induction false} LastPlaces(s: string, i: nat)
    requires |s| - 3 < i <= |s|
    ensures GroupFrom(s, i) == s[i..]
    decreases |s| - i
  {
    if i < |s| {
      LastPlaces(s, i + 1);
    }
  }

  function Comma(s: string, i: nat): string {
    if 0 < i && (|s| - i) % 3 == 0 then "," else ""
  }

  lemma GroupStep(s: string, i: nat)
    requires i < |s|
    ensures GroupFrom(s, i) == (Comma(s, i) + [s[i]]) + GroupFrom(s, i + 1)
  {
  }

  lemma CommaInHead(s: string, i: nat)
    requires i < |s| - 3
    ensures Comma(s[..|s| - 3], i) == Comma(s, i)
  {
  }

  lemma Rejoined(before: string, s: string, i: nat)
    requires i < |s|
    ensures (before + [s[i]]) + s[i + 1..] == before + s[i..]
  {
  }

  lemma CommaBeforeLast(s: string)
    requires |s| > 3
    ensures Comma(s, |s| - 3) == ","
  {
  }

  lemma {:induction false} GroupEnds(s: string)
    ensures GroupFrom(s, |s|) == []
  {
  }

  lemma {:induction false} GroupSplitsLast(s: string)
    requires |s| > 3
    ensures GroupFrom(s, |s| - 3) == "," + s[|s| - 3..]
    ensures GroupFrom(s[..|s| - 3], |s| - 3) == []
  {
    hide GroupFrom, Comma;
    GroupStep(s, |s| - 3);
    CommaBeforeLast(s);
    GroupEnds(s[..|s| - 3]);
    LastPlaces(s, |s| - 2);
    Rejoined(",", s, |s| - 3);
  }

  lemma {:induction false} GroupSplits(s: string, i: nat)
    requires |s| > 3 && i <= |s| - 3
    ensures GroupFrom(s, i) == GroupFrom(s[..|s| - 3], i) + ("," + s[|s| - 3..])
    decreases |s| - i
  {
    hide GroupFrom, Comma;
    if i == |s| - 3 {
      GroupSplitsLast(s);
    } else {
      GroupStep(s, i);
      GroupStep(s[..|s| - 3], i);
      GroupSplits(s, i + 1);
      CommaInHead(s, i);
    }
  }

  lemma {:induction false} ShortGroup(s: string, i: nat)
    requires i <= |s| <= 3
    ensures GroupFrom(s, i) == s[i..]
    decreases |s| - i
  {
    if i < |s| {
      ShortGroup(s, i + 1);
    }
  }

  // Grouped digits are grouped as the parser demands, and without their commas are the digits.
  lemma {:induction false} GroupedReads(s: string)
    requires s != [] && AllDigits(s)
    ensures IsGrouped(GroupFrom(s, 0))
    ensures WithoutCommas(GroupFrom(s, 0)) == s
    decreases |s|
  {
    hide GroupFrom, WithoutCommas;
    if |s| <= 3 {
      ShortGroup(s, 0);
      NoCommas(s);
    } else {
      var n := |s|;
      var head, tail := GroupFrom(s[..n - 3], 0), s[n - 3..];
      GroupSplits(s, 0);
      GroupedReads(s[..n - 3]);
      var g := GroupFrom(s, 0);
      assert g == head + ("," + tail) && g[..|g| - 4] == head && g[|g| - 3..] == tail && g[|g| - 4] == ',';
      LastThree(g);
    }
  }

  lemma {:induction false} WholeReads(n: nat, grouped: bool)
    ensures var s := if grouped then Group(n) else Digits(n); IsWhole(s) && ReadWhole(s) == n
  {
    DigitsValue(n);
    GroupedReads(Digits(n));
    NoCommas(Digits(n));
  }

  // ---- round trips ----

  // `s` is `r` with zeros behind it.
  predicate ZerosMore(s: string, r: string) {
    |r| <= |s| && s == r + Zeros(|s| - |r|)
  }

  // What is stripped is zeros.
  lemma {:induction false} StripThenZeros(s: string)
    ensures ZerosMore(s, StripTrailingZeros(s))
  {
    if s != [] && s[|s| - 1] == '0' {
      var shorter := s[..|s| - 1];
      StripThenZeros(shorter);
      ZerosJoin(|shorter| - |StripTrailingZeros(shorter)|, 1);
      assert s == shorter + Zeros(1);
    }
  }

  lemma ZerosJoin(a: nat, b: nat)
    ensures Zeros(a) + Zeros(b) == Zeros(a + b)
  {
  }

  lemma StrippedPadsBack(s: string, width: nat)
    requires |s| <= width
    ensures PadEnd(StripTrailingZeros(s), width) == PadEnd(s, width)
  {
    hide PadEnd, ZerosMore, StripTrailingZeros, AllDigits;
    StripThenZeros(s);
    PadsBack(s, StripTrailingZeros(s), width);
  }

  lemma PadsBack(s: string, r: string, width: nat)
    requires |s| <= width && ZerosMore(s, r)
    ensures PadEnd(r, width) == PadEnd(s, width)
  {
    hide Zeros, PadEnd;
    PadsWithZeros(s, width);
    PadsWithZeros(r, width);
    ZerosJoin(|s| - |r|, width - |s|);
    PaddedAlike(s, r, Zeros(|s| - |r|), Zeros(width - |s|), Zeros(width - |r|));
  }

  lemma PaddedAlike(s: string, r: string, a: string, b: string, c: string)
    requires s == r + a && c == a + b
    ensures r + c == s + b
  {
  }

  lemma PaddedIsDigits(s: string, width: nat)
    requires AllDigits(s)
    ensures AllDigits(PadEnd(s, width))
  {
    hide Zeros;
  }

  lemma StrippedIsDigits(s: string)
    requires AllDigits(s)
    ensures AllDigits(StripTrailingZeros(s))
  {
    var r := StripTrailingZeros(s);
    hide StripTrailingZeros;
    assert forall i :: 0 <= i < |r| ==> r[i] == s[..|r|][i];
  }

  lemma StrippedReads(s: string, width: nat)
    requires AllDigits(s) && |s| <= width
    ensures AllDigits(StripTrailingZeros(s))
    ensures AllDigits(PadEnd(s, width)) && AllDigits(PadEnd(StripTrailingZeros(s), width))
    ensures PadEnd(StripTrailingZeros(s), width) == PadEnd(s, width)
  {
    hide AllDigits, StripTrailingZeros, PadEnd;
    StrippedIsDigits(s);
    PaddedIsDigits(s, width);
    PaddedIsDigits(StripTrailingZeros(s), width);
    StrippedPadsBack(s, width);
  }

  lemma PadsWithZeros(s: string, width: nat)
    requires |s| <= width
    ensures PadEnd(s, width) == s + Zeros(width - |s|)
  {
    if |s| == width {
      assert s + Zeros(0) == s;
    }
  }

  // Truncation of an amount to `decimals` places.
  function Truncate(stroops: nat, decimals: nat): int
    requires decimals <= DECIMALS
  {
    stroops / Pow10(DECIMALS - decimals) * Pow10(DECIMALS - decimals)
  }

  // Truncating never shows more than there is, and less than one unit of the last place shown too
  // little.
  lemma {:induction false} TruncateBounds(stroops: nat, decimals: nat)
    requires decimals <= DECIMALS
    ensures Truncate(stroops, decimals) <= stroops < Truncate(stroops, decimals) + Pow10(DECIMALS - decimals)
    ensures decimals == DECIMALS ==> Truncate(stroops, decimals) == stroops
  {
    DivBounds(stroops, Pow10(DECIMALS - decimals));
  }

  lemma {:induction false} PowSplits(a: nat, b: nat)
    ensures Pow10(a + b) == Pow10(a) * Pow10(b)
  {
    if a > 0 {
      PowSplits(a - 1, b);
      assert Pow10(a) * Pow10(b) == 10 * (Pow10(a - 1) * Pow10(b));
    }
  }

  lemma CutOff(stroops: int, whole: int, head: int, tail: int, shown: int, unit: int)
    requires 0 < unit && 0 <= tail < unit
    requires stroops == whole * (shown * unit) + (head * unit + tail)
    ensures whole * (shown * unit) + head * unit == stroops / unit * unit
  {
    var q := whole * shown + head;
    assert q * unit == whole * (shown * unit) + head * unit;
    DivUnique(stroops, unit, q);
  }

  // The digits shown of a fraction, padded out again, are the fraction less what was cut off.
  lemma CutFraction(stroops: nat, decimals: nat)
    requires decimals <= DECIMALS
    ensures var f := FractionDigits(stroops);
            && decimals <= |f| && AllDigits(f[..decimals]) && AllDigits(PadEnd(f[..decimals], DECIMALS))
            && stroops / STROOPS_PER_UNIT * STROOPS_PER_UNIT + Value(PadEnd(f[..decimals], DECIMALS)) ==
               Truncate(stroops, decimals)
  {
    FractionHasSevenDigits(stroops);
    hide Value, Pow10, FractionDigits;
    var f, cut, unit := FractionDigits(stroops), DECIMALS - decimals, Pow10(DECIMALS - decimals);
    var head, tail := f[..decimals], f[decimals..];
    assert f == head + tail;
    ValueConcat(head, tail);
    ValueBounded(tail);
    ValueConcat(head, Zeros(cut));
    ZerosValue(cut);
    assert PadEnd(head, DECIMALS) == head + Zeros(cut) by {
      assert head + Zeros(0) == head;
    }
    TenMillion();
    PowSplits(decimals, cut);
    CutOff(stroops, stroops / STROOPS_PER_UNIT, Value(head), Value(tail), Pow10(decimals), unit);
  }

  function WholeText(magnitude: nat, grouped: bool): string {
    if grouped then Group(magnitude / STROOPS_PER_UNIT) else Digits(magnitude / STROOPS_PER_UNIT)
  }

  lemma DisplayShape(stroops: int, decimals: nat, grouped: bool)
    requires decimals <= DECIMALS
    ensures var m := Magnitude(stroops);
            && decimals <= |FractionDigits(m)|
            && FormatAmount(stroops, decimals, grouped, "") ==
               Ok(Sign(stroops) + Text(WholeText(m, grouped), FractionDigits(m)[..decimals]))
  {
    FractionHasSevenDigits(Magnitude(stroops));
    hide FractionDigits, Group, Digits;
    var m := Magnitude(stroops);
    var shown := FractionDigits(m)[..decimals];
    var body := WholeText(m, grouped) + if 0 < decimals then "." + shown else "";
    assert body == Text(WholeText(m, grouped), shown);
    assert Sign(stroops) + body + "" == Sign(stroops) + body;
  }

  lemma ExactShape(stroops: int)
    ensures var m := Magnitude(stroops);
            && FormatExact(stroops) ==
               Sign(stroops) + Text(WholeText(m, false), StripTrailingZeros(FractionDigits(m)))
            && Typed(WholeText(m, false), StripTrailingZeros(FractionDigits(m)))
  {
    var m := Magnitude(stroops);
    FractionHasSevenDigits(m);
    StrippedReads(FractionDigits(m), DECIMALS);
    WholeReads(m / STROOPS_PER_UNIT, false);
    hide FractionDigits, Digits, StripTrailingZeros;
  }

  lemma ExactAmount(stroops: nat)
    ensures var whole, fraction := WholeText(stroops, false), StripTrailingZeros(FractionDigits(stroops));
            Typed(whole, fraction) && Amount(whole, fraction) == stroops
  {
    FractionHasSevenDigits(stroops);
    StrippedReads(FractionDigits(stroops), DECIMALS);
    WholeReads(stroops / STROOPS_PER_UNIT, false);
    hide FractionDigits, ReadWhole, Value, Digits, StripTrailingZeros;
  }

  // Every positive amount printed exactly reads back as itself, whatever spaces surround it.
  lemma ExactRoundTrip(stroops: int, before: string, after: string)
    requires 0 < stroops
    requires AllSpace(before) && AllSpace(after)
    ensures Parse(before + FormatExact(stroops) + after) == Ok(stroops)
  {
    ExactAmount(stroops);
    ExactShape(stroops);
    hide Parse, FormatExact, FractionDigits, Text, Amount, Typed, WholeText, StripTrailingZeros, AllSpace;
    ParseTyped(before, WholeText(stroops, false), StripTrailingZeros(FractionDigits(stroops)), after);
    assert "" + Text(WholeText(stroops, false), StripTrailingZeros(FractionDigits(stroops))) ==
           Text(WholeText(stroops, false), StripTrailingZeros(FractionDigits(stroops)));
  }

  lemma CutAmount(stroops: nat, decimals: nat, grouped: bool)
    requires decimals <= DECIMALS
    ensures var whole, f := WholeText(stroops, grouped), FractionDigits(stroops);
            decimals <= |f| && Typed(whole, f[..decimals]) && Amount(whole, f[..decimals]) == Truncate(stroops, decimals)
  {
    WholeReads(stroops / STROOPS_PER_UNIT, grouped);
    CutFraction(stroops, decimals);
    hide FractionDigits, ReadWhole, Value, Digits, Truncate, Group;
  }

  // What is displayed reads back as the truncated amount, grouped or not, at every precision: the
  // whole amount at seven places, and an error exactly when nothing but zeros is shown.
  lemma DisplayRoundTrip(stroops: nat, decimals: nat, grouped: bool, before: string, after: string)
    requires decimals <= DECIMALS
    requires AllSpace(before) && AllSpace(after)
    ensures var shown := FormatAmount(stroops, decimals, grouped, "");
            && shown.Ok?
            && Parse(before + shown.value + after) ==
               if Truncate(stroops, decimals) == 0 then Err(NotPositive) else Ok(Truncate(stroops, decimals))
  {
    CutAmount(stroops, decimals, grouped);
    DisplayShape(stroops, decimals, grouped);
    hide Parse, FormatAmount, FractionDigits, Text, Amount, Typed, WholeText, Truncate, AllSpace;
    var whole, fraction := WholeText(stroops, grouped), FractionDigits(stroops)[..decimals];
    ParseTyped(before, whole, fraction, after);
    assert "" + Text(whole, fraction) == Text(whole, fraction);
  }

  // A negative amount is never read as a positive one.
  lemma {:induction false} NegativeIsRefused(stroops: int, decimals: nat, grouped: bool)
    requires stroops < 0 && decimals <= DECIMALS
    ensures FormatAmount(stroops, decimals, grouped, "").Ok?
    ensures Parse(FormatAmount(stroops, decimals, grouped, "").value) == Err(Negative)
    ensures Parse(FormatExact(stroops)) == Err(Negative)
  {
    var m := Magnitude(stroops);
    WholeReads(m / STROOPS_PER_UNIT, grouped);
    CutFraction(m, decimals);
    DisplayShape(stroops, decimals, grouped);
    ExactShape(stroops);
    hide Parse, FormatAmount, FormatExact, FractionDigits, Text, IsWhole, Group, Digits, StripTrailingZeros;
    SignedIsRefused(WholeText(m, grouped), FractionDigits(m)[..decimals]);
    SignedIsRefused(WholeText(m, false), StripTrailingZeros(FractionDigits(m)));
  }

  lemma SignedIsRefused(whole: string, fraction: string)
    requires Typed(whole, fraction)
    ensures Parse("-" + Text(whole, fraction)) == Err(Negative)
  {
    var text := "-" + Text(whole, fraction);
    WholeCharacters(whole);
    assert text[|text| - 1] == if fraction == "" then whole[|whole| - 1] else fraction[|fraction| - 1];
    assert [] + text + [] == text;
    TrimPadded([], text, []);
  }
}
