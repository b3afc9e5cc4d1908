/** The deterministic string logic of the Betby scraper: turning the digits Betby shows
    for an odd into a decimal odd, and extracting the fields of an event card from the
    card's visible text. The browser session that produces that text is not modelled. */
module BetbyParsing {
  import opened Wrappers
  import opened Text

  // ---------------------------------------------------------------------------
  // Odds: `ConvertOddToDecimal`

  /** `int.MaxValue`: `int.TryParse` fails on a larger digit string. */
  const Int32Max: nat := 2147483647

  /** `Regex.Replace(rawOdd, @"[^\d]", "")`: the decimal digits of `s`, in order. */
  function KeepDigits(s: string): (r: string)
    ensures |r| <= |s|
    ensures forall i :: 0 <= i < |r| ==> IsDigit(r[i])
    ensures (forall i :: 0 <= i < |s| ==> IsDigit(s[i])) ==> r == s
    ensures |s| == 1 && !IsDigit(s[0]) ==> r == []
  {
    if s == [] then []
    else KeepDigits(s[..|s| - 1]) + (if IsDigit(s[|s| - 1]) then [s[|s| - 1]] else [])
  }

  /** Filtering the digits of a concatenation filters each part in turn, so every digit
      of `s` is kept, in order, and every other character is dropped. */
  lemma {:induction false} KeepDigitsConcat(a: string, b: string)
    ensures KeepDigits(a + b) == KeepDigits(a) + KeepDigits(b)
    decreases |b|
  {
    if b != [] {
      var b' := b[..|b| - 1];
      assert (a + b)[..|a + b| - 1] == a + b';
      KeepDigitsConcat(a, b');
    } else {
      assert a + b == a;
    }
  }

  /** `int.TryParse` of a string made of decimal digits only. */
  function ParseInt32(digits: string): (r: Option<nat>)
    requires forall i :: 0 <= i < |digits| ==> IsDigit(digits[i])
    ensures r.Some? <==> digits != [] && DigitsValue(digits) <= Int32Max
    ensures r.Some? ==> r.value == DigitsValue(digits)
  {
    if digits == [] || DigitsValue(digits) > Int32Max then None else Some(DigitsValue(digits))
  }

  /** Two digits, with a leading zero below ten (the cents of the `F2` format). */
  function TwoDigits(m: nat): (r: string)
    requires m < 100
    ensures |r| == 2 && forall i :: 0 <= i < 2 ==> IsDigit(r[i])
    ensures DigitsValue(r) == m
  {
    var r := [DigitChar(m / 10), DigitChar(m % 10)];
    assert r[..1] == [DigitChar(m / 10)] && r[..1][..0] == [];
    assert DigitsValue(r[..1]) == m / 10;
    r
  }

  /** The text of a positive odd read from Betby's digits `n`: three or more digits are
      hundredths (`n/100` with two decimals), two digits are tenths (`n/10` with one
      decimal), and one digit is the odd itself. */
  function OddText(n: nat): string
    requires n > 0
  {
    if n >= 100 then NatToString(n / 100) + "." + TwoDigits(n % 100)
    else if n >= 10 then NatToString(n / 10) + "." + [DigitChar(n % 10)]
    else NatToString(n)
  }

  /** `ConvertOddToDecimal`: "0" for an empty string, the raw text unchanged when its
      digits do not parse or parse to zero. */
  function ConvertOddToDecimal(rawOdd: string): (r: string)
    ensures rawOdd == [] ==> r == "0"
    ensures rawOdd != [] ==>
      var p := ParseInt32(KeepDigits(rawOdd));
      if p.Some? && p.value > 0 then r == OddText(p.value) else r == rawOdd
  {
    if rawOdd == [] then "0"
    else
      var cleanOdd := KeepDigits(rawOdd);
      match ParseInt32(cleanOdd)
      case Some(intOdd) =>
        if intOdd > 0 then OddText(intOdd) else rawOdd
      case None => rawOdd
  }

  // Reading a decimal odd back

  /** `x` with the decimal point moved `k` places to the left. */
  function ShiftPoint(x: real, k: nat): real {
    if k == 0 then x else ShiftPoint(x, k - 1) / 10.0
  }

  predicate AllDigits(s: string) {
    s != [] && forall i :: 0 <= i < |s| ==> IsDigit(s[i])
  }

  /** The value of a decimal text `d` or `d.f` with non-empty digit groups; `None` for any
      other text. This is the reading `decimal.TryParse` gives such a text downstream. */
  function DecimalValue(s: string): (r: Option<real>)
  {
    var parts := Split(s, '.');
    if |parts| == 1 && AllDigits(parts[0]) then Some(DigitsValue(parts[0]) as real)
    else if |parts| == 2 && AllDigits(parts[0]) && AllDigits(parts[1]) then
      Some(DigitsValue(parts[0]) as real + ShiftPoint(DigitsValue(parts[1]) as real, |parts[1]|))
    else None
  }

  lemma DigitsHaveNoDot(s: string)
    requires forall i :: 0 <= i < |s| ==> IsDigit(s[i])
    ensures '.' !in s
  {
    forall i | 0 <= i < |s| ensures s[i] != '.' {
      assert IsDigit(s[i]);
    }
  }

  /** `DecimalValue` of `whole + "." + frac` for digit groups `whole` and `frac`. */
  lemma {:induction false} DecimalValueOfPoint(whole: string, frac: string)
    requires AllDigits(whole) && AllDigits(frac)
    ensures DecimalValue(whole + "." + frac) ==
      Some(DigitsValue(whole) as real + ShiftPoint(DigitsValue(frac) as real, |frac|))
  {
    DigitsHaveNoDot(whole);
    DigitsHaveNoDot(frac);
    SplitWithoutSeparator(frac, '.');
    SplitAfterPiece(whole, '.', frac);
    assert whole + "." + frac == whole + ['.'] + frac;
  }

  lemma HundredthsValue(n: nat)
    requires n >= 100
    ensures DecimalValue(OddText(n)) == Some(n as real / 100.0)
  {
    var whole, frac := NatToString(n / 100), TwoDigits(n % 100);
    var q, m := n / 100, n % 100;
    var t := OddText(n);
    assert t == whole + "." + frac;
    DigitsValueOfNatToString(q);
    DecimalValueOfPoint(whole, frac);
    assert ShiftPoint(m as real, 2) == m as real / 100.0 by {
      assert ShiftPoint(m as real, 1) == m as real / 10.0;
    }
    assert (q * 100) as real == q as real * 100.0;
  }

  lemma TenthsValue(n: nat)
    requires 10 <= n < 100
    ensures DecimalValue(OddText(n)) == Some(n as real / 10.0)
  {
    var whole, frac := NatToString(n / 10), [DigitChar(n % 10)];
    var q, m := n / 10, n % 10;
    var t := OddText(n);
    assert t == whole + "." + frac;
    DigitsValueOfNatToString(q);
    assert DigitsValue(frac) == m by {
      assert frac[..0] == [];
    }
    DecimalValueOfPoint(whole, frac);
    assert ShiftPoint(m as real, 1) == m as real / 10.0;
    assert (q * 10) as real == q as real * 10.0;
  }

  lemma UnitsValue(n: nat)
    requires 0 < n < 10
    ensures DecimalValue(OddText(n)) == Some(n as real)
  {
    var t := NatToString(n);
    DigitsValueOfNatToString(n);
    DigitsHaveNoDot(t);
    SplitWithoutSeparator(t, '.');
  }

  /** The converted odd is `n/100`, `n/10` or `n` as a decimal number, where `n` is the
      value of the raw odd's digits: the conversion places the decimal point and loses
      nothing. */
  lemma OddTextValue(n: nat)
    requires n > 0
    ensures DecimalValue(OddText(n)) ==
      Some(if n >= 100 then n as real / 100.0 else if n >= 10 then n as real / 10.0 else n as real)
  {
    if n >= 100 {
      HundredthsValue(n);
    } else if n >= 10 {
      TenthsValue(n);
    } else {
      UnitsValue(n);
    }
  }

  // ---------------------------------------------------------------------------
  // Event cards: the line layout of `ParseRawText`

  /** `rawText.Split('\n', RemoveEmptyEntries).Select(Trim).Where(!IsNullOrEmpty)`. */
  function Lines(rawText: string): (r: seq<string>)
    ensures forall i :: 0 <= i < |r| ==> IsCardLine(r[i])
  {
    NonEmptyTrimmed(RemoveEmpty(Split(rawText, '\n')))
  }

  /** A line of a card: non-empty, without a line break and trimmed. */
  predicate IsCardLine(l: string) {
    IsTrimmedText(l) && '\n' !in l
  }

  lemma TrimmedLine(s: string)
    requires '\n' !in s
    ensures Trim(s) != [] ==> IsCardLine(Trim(s))
  {
    TrimAddsNothing(s, '\n');
  }

  /** The trimmed pieces, in order, with the blank ones dropped. */
  function NonEmptyTrimmed(pieces: seq<string>): (r: seq<string>)
    requires forall i :: 0 <= i < |pieces| ==> '\n' !in pieces[i]
    ensures forall i :: 0 <= i < |r| ==> IsCardLine(r[i])
    ensures |r| <= |pieces|
    ensures (forall i :: 0 <= i < |pieces| ==> IsBlank(pieces[i])) <==> r == []
    ensures pieces != [] && !IsBlank(pieces[0]) ==> r[0] == Trim(pieces[0])
  {
    if pieces == [] then []
    else
      var t := Trim(pieces[0]);
      var rest := NonEmptyTrimmed(pieces[1..]);
      TrimmedLine(pieces[0]);
      if t == [] then rest else [t] + rest
  }

  /** Trimming and dropping blank pieces distributes over concatenation, so the result
      is the trim of every non-blank piece, in order. */
  lemma {:induction false} NonEmptyTrimmedConcat(a: seq<string>, b: seq<string>)
    requires forall i :: 0 <= i < |a| ==> '\n' !in a[i]
    requires forall i :: 0 <= i < |b| ==> '\n' !in b[i]
    ensures NonEmptyTrimmed(a + b) == NonEmptyTrimmed(a) + NonEmptyTrimmed(b)
    decreases |a|
  {
    if a == [] {
      assert a + b == b;
    } else {
      assert (a + b)[0] == a[0] && (a + b)[1..] == a[1..] + b;
      NonEmptyTrimmedConcat(a[1..], b);
    }
  }

  /** `Trim` leaves a card line as it is. */
  lemma TrimOfCardLine(l: string)
    requires IsCardLine(l)
    ensures Trim(l) == l
  {
  }

  /** Card lines come out of `NonEmptyTrimmed` as they went in. */
  lemma {:induction false} NonEmptyTrimmedOfCardLines(ls: seq<string>)
    requires forall i :: 0 <= i < |ls| ==> IsCardLine(ls[i]) && '\n' !in ls[i]
    ensures NonEmptyTrimmed(ls) == ls
  {
    if ls != [] {
      TrimOfCardLine(ls[0]);
      NonEmptyTrimmedOfCardLines(ls[1..]);
      assert [ls[0]] + ls[1..] == ls;
    }
  }

  /** Card lines joined by line breaks give back exactly those lines. */
  lemma LinesOfJoinedCard(ls: seq<string>)
    requires forall i :: 0 <= i < |ls| ==> IsCardLine(ls[i])
    ensures Lines(Join(ls, '\n')) == ls
  {
    var t := Join(ls, '\n');
    assert forall i :: 0 <= i < |ls| ==> ls[i] != [] && '\n' !in ls[i];
    if ls != [] {
      SplitJoin(ls, '\n');
      RemoveEmptyOfNonEmpty(ls);
      assert RemoveEmpty(Split(t, '\n')) == ls;
    } else {
      assert Split(t, '\n') == [""];
    }
    NonEmptyTrimmedOfCardLines(ls);
  }

  /** `line.Equals("1x2", StringComparison.OrdinalIgnoreCase)`. */
  predicate Is1x2(line: string) {
    ToLower(line) == "1x2"
  }

  /** `lines.FindIndex(Is1x2)`: the first matching index, `None` for -1. */
  function Find1x2(lines: seq<string>): (r: Option<nat>)
    ensures r.None? <==> forall i :: 0 <= i < |lines| ==> !Is1x2(lines[i])
    ensures r.Some? ==> r.value < |lines| && Is1x2(lines[r.value]) &&
                        forall i :: 0 <= i < r.value ==> !Is1x2(lines[i])
  {
    if lines == [] then None
    else if Is1x2(lines[0]) then Some(0)
    else
      match Find1x2(lines[1..])
      case None => None
      case Some(k) =>
        assert forall i :: 1 <= i < k + 1 ==> lines[i] == lines[1..][i - 1];
        Some(k + 1)
  }

  /** What the library calls on the kickoff line yield: text in the `yyyy-MM-dd, HH:mm`
      form (UTC), a time that `TimeSpan.TryParse` rejects, or a time-zone lookup that
      throws. */
  datatype KickoffText = Formatted(text: string) | NotATime | ZoneError

  /** `ScrapedEventDto` without the `Link`, which the caller sets afterwards. */
  datatype ScrapedEvent = ScrapedEvent(
    league: string, dateTime: string, team1: string, team2: string,
    oddTeam1: string, oddDraw: string, oddTeam2: string)

  /** The kickoff text of line 2, `None` when the line has no comma, does not split into
      exactly two pieces or does not hold a time; `resolve` stands for the clock, the
      Brazil time-zone conversion and the formatting, fed with whether the day
      indicator reads "today" and the trimmed time text. */
  function KickoffOf(line: string, resolve: (bool, string) -> KickoffText): KickoffText {
    if ',' !in line then NotATime
    else
      var parts := Split(line, ',');
      if |parts| != 2 then NotATime
      else resolve(ToLower(Trim(parts[0])) == "today", Trim(parts[1]))
  }

  /** The converted odds at the second, fourth and sixth line after line `k`. */
  function OddsAfter(lines: seq<string>, k: nat): (string, string, string)
    requires k + 6 < |lines|
  {
    (ConvertOddToDecimal(lines[k + 2]), ConvertOddToDecimal(lines[k + 4]), ConvertOddToDecimal(lines[k + 6]))
  }

  /** The three 1X2 odds of a card, at the second, fourth and sixth line after the first
      "1x2" line, or "0" each when there is no such line or there are too few lines after
      it. */
  function OddsOfCard(lines: seq<string>): (r: (string, string, string))
    ensures forall k :: 0 <= k < |lines| && Is1x2(lines[k]) && (forall i :: 0 <= i < k ==> !Is1x2(lines[i])) ==>
      r == if k + 6 < |lines| then OddsAfter(lines, k) else ("0", "0", "0")
    ensures (forall i :: 0 <= i < |lines| ==> !Is1x2(lines[i])) ==> r == ("0", "0", "0")
  {
    var first := Find1x2(lines);
    assert forall k :: 0 <= k < |lines| && Is1x2(lines[k]) && (forall i :: 0 <= i < k ==> !Is1x2(lines[i])) ==>
      first == Some(k);
    match first
    case Some(k) =>
      if k + 6 < |lines| then OddsAfter(lines, k) else ("0", "0", "0")
    case None => ("0", "0", "0")
  }

  /** The field extraction of `ParseRawText` over the card's lines: a card is parsed
      exactly when it has at least six lines and the kickoff conversion does not throw
      (the method's catch-all); league, teams and odds sit at fixed line offsets, the
      date is empty unless line 2 holds a convertible kickoff, and an odd that is never
      found reads "0". */
  function CardOfLines(lines: seq<string>, resolve: (bool, string) -> KickoffText): (r: Option<ScrapedEvent>)
    ensures r.Some? <==> |lines| >= 6 && !KickoffOf(lines[2], resolve).ZoneError?
    ensures r.Some? ==>
      var kickoff := KickoffOf(lines[2], resolve);
      && r.value.league == lines[0] + " - " + lines[1]
      && r.value.team1 == lines[3]
      && r.value.team2 == lines[4]
      && (',' !in lines[2] ==> r.value.dateTime == "")
      && (kickoff.Formatted? ==> r.value.dateTime == kickoff.text)
      && (kickoff.NotATime? ==> r.value.dateTime == "")
      && (r.value.oddTeam1, r.value.oddDraw, r.value.oddTeam2) == OddsOfCard(lines)
  {
    if |lines| < 6 then None
    else
      var kickoff := KickoffOf(lines[2], resolve);
      if kickoff.ZoneError? then None
      else
        var odds := OddsOfCard(lines);
        Some(ScrapedEvent(
          lines[0] + " - " + lines[1],
          if kickoff.Formatted? then kickoff.text else "",
          lines[3], lines[4], odds.0, odds.1, odds.2))
  }

  /** `ParseRawText`: the card's text is cut into non-empty trimmed lines, so every field
      taken from a line is non-empty and trimmed. */
  function ParseRawText(rawText: string, resolve: (bool, string) -> KickoffText): (r: Option<ScrapedEvent>)
    ensures r == CardOfLines(Lines(rawText), resolve)
    ensures r.Some? ==> IsCardLine(r.value.team1) && IsCardLine(r.value.team2)
  {
    CardOfLines(Lines(rawText), resolve)
  }

  /** A card written as lines parses as those lines: fewer than six is no event, and
      otherwise every field sits at its line's offset. */
  lemma ParseRawTextOfJoinedCard(ls: seq<string>, resolve: (bool, string) -> KickoffText)
    requires forall i :: 0 <= i < |ls| ==> IsCardLine(ls[i])
    ensures ParseRawText(Join(ls, '\n'), resolve) == CardOfLines(ls, resolve)
    ensures |ls| < 6 ==> ParseRawText(Join(ls, '\n'), resolve).None?
  {
    LinesOfJoinedCard(ls);
  }
}
