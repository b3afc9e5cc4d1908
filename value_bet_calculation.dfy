/** The value-bet engine: pairs every Betby event with its best Pinnacle counterpart
    (same kickoff minute, both team names similar enough), scores the three 1X2 outcomes
    by expected value and keeps the candidates with an edge of at least 1%, sorted by
    expected value. The event lists are snapshots of what the engine reads from the
    database; loading and saving them is not part of the model. */
module ValueBetCalculation {
  import opened Wrappers
  import opened Text
  import opened Enums

  // ---------------------------------------------------------------------------
  // Team-name normalisation

  const StopWords: set<string> :=
    {"fc", "cf", "club", "united", "city", "town", "athletic", "sport", "association", "al"}

  /** `Encoding.ASCII.GetBytes` followed by `GetString`: every non-ASCII character
      becomes '?'. */
  function AsciiEncode(s: string): (r: string)
    ensures |r| == |s|
    ensures forall i :: 0 <= i < |s| ==> r[i] == if s[i] as int < 128 then s[i] else '?'
  {
    seq(|s|, i requires 0 <= i < |s| => if s[i] as int < 128 then s[i] else '?')
  }

  predicate IsNameChar(c: char) {
    'a' <= c <= 'z' || '0' <= c <= '9' || c == ' '
  }

  /** `Regex.Replace(s, "[^a-zA-Z0-9 ]", "")`. */
  function KeepAlphanumeric(s: string): (r: string)
    ensures |r| <= |s|
    ensures forall c :: c in r ==> c in s && ('A' <= c <= 'Z' || IsNameChar(c))
    ensures (forall i :: 0 <= i < |s| ==> 'A' <= s[i] <= 'Z' || IsNameChar(s[i])) ==> r == s
    ensures |s| == 1 && !('A' <= s[0] <= 'Z' || IsNameChar(s[0])) ==> r == []
  {
    if s == [] then []
    else
      var c := s[|s| - 1];
      KeepAlphanumeric(s[..|s| - 1]) + (if 'A' <= c <= 'Z' || IsNameChar(c) then [c] else [])
  }

  /** Filtering a concatenation filters each part in turn, so every letter, digit and
      space of `s` is kept, in order, and every other character is dropped. */
  lemma {:induction false} KeepAlphanumericConcat(a: string, b: string)
    ensures KeepAlphanumeric(a + b) == KeepAlphanumeric(a) + KeepAlphanumeric(b)
    decreases |b|
  {
    if b != [] {
      var b' := b[..|b| - 1];
      assert (a + b)[..|a + b| - 1] == a + b';
      KeepAlphanumericConcat(a, b');
    } else {
      assert a + b == a;
    }
  }

  function WithoutStopWords(tokens: seq<string>): (r: seq<string>)
    ensures forall i :: 0 <= i < |r| ==> r[i] in tokens && r[i] !in StopWords
    ensures forall t :: t in tokens && t !in StopWords ==> t in r
    ensures (forall i :: 0 <= i < |tokens| ==> tokens[i] !in StopWords) ==> r == tokens
  {
    if tokens == [] then []
    else if tokens[0] in StopWords then WithoutStopWords(tokens[1..])
    else [tokens[0]] + WithoutStopWords(tokens[1..])
  }

  /** The surviving words of a team name, in order. `nfkd` stands for the library's
      Unicode compatibility decomposition (`String.Normalize(FormKD)`). */
  function NameTokens(s: string, nfkd: string -> string): (r: seq<string>)
    ensures forall i :: 0 <= i < |r| ==> r[i] != [] && r[i] !in StopWords
    ensures forall i :: 0 <= i < |r| ==> forall c :: c in r[i] ==> 'a' <= c <= 'z' || '0' <= c <= '9'
  {
    var cleaned := KeepAlphanumeric(ToLower(AsciiEncode(nfkd(s))));
    assert forall c :: c in cleaned ==> IsNameChar(c) by {
      forall c | c in cleaned ensures IsNameChar(c) {
        var lowered := ToLower(AsciiEncode(nfkd(s)));
        assert c in lowered;
        var i :| 0 <= i < |lowered| && lowered[i] == c;
      }
    }
    WithoutStopWords(SplitNonEmpty(cleaned, ' '))
  }

  /** `NormalizeStringPython`: lower-case, keep letters, digits and spaces, drop the
      stop words and join the remaining words with single spaces. */
  function NormalizeName(s: string, nfkd: string -> string): (r: string)
    ensures s == [] ==> r == []
    ensures forall c :: c in r ==> IsNameChar(c)
  {
    if s == [] then []
    else
      var tokens := NameTokens(s, nfkd);
      JoinIsSingleSpaced(tokens, ' ');
      Join(tokens, ' ')
  }

  /** A word as the normaliser leaves it: non-empty, lower-case letters and digits. */
  predicate IsCleanWord(w: string) {
    w != [] && forall c :: c in w ==> 'a' <= c <= 'z' || '0' <= c <= '9'
  }

  /** Lower-case ASCII letters, digits and spaces pass the first three steps unchanged,
      so only the split and the stop-word filter act on such a text. */
  lemma NameTokensOfCleanText(t: string, nfkd: string -> string)
    requires forall c :: c in t ==> IsNameChar(c)
    requires nfkd(t) == t
    ensures NameTokens(t, nfkd) == WithoutStopWords(SplitNonEmpty(t, ' '))
  {
    assert forall i :: 0 <= i < |t| ==> IsNameChar(t[i]);
    assert AsciiEncode(t) == t;
    assert ToLower(t) == t;
    assert KeepAlphanumeric(t) == t;
  }

  /** Clean words joined by spaces hold only name characters. */
  lemma JoinOfCleanWords(words: seq<string>)
    requires forall i :: 0 <= i < |words| ==> IsCleanWord(words[i])
    ensures forall c :: c in Join(words, ' ') ==> IsNameChar(c)
  {
    JoinIsSingleSpaced(words, ' ');
    forall c | c in Join(words, ' ') ensures IsNameChar(c) {
      if c != ' ' {
        var i :| 0 <= i < |words| && c in words[i];
        assert IsCleanWord(words[i]);
      }
    }
  }

  /** A team name already written as clean words separated by single spaces loses
      exactly its stop words: the other words survive, in order and with their
      repetitions. */
  lemma {:induction false} NameTokensOfCleanWords(words: seq<string>, nfkd: string -> string)
    requires forall i :: 0 <= i < |words| ==> IsCleanWord(words[i])
    requires nfkd(Join(words, ' ')) == Join(words, ' ')
    ensures NameTokens(Join(words, ' '), nfkd) == WithoutStopWords(words)
    ensures NormalizeName(Join(words, ' '), nfkd) == Join(WithoutStopWords(words), ' ')
  {
    var t := Join(words, ' ');
    assert SplitNonEmpty(t, ' ') == words by {
      assert forall i :: 0 <= i < |words| ==> words[i] != [] && ' ' !in words[i];
      SplitNonEmptyJoin(words, ' ');
    }
    assert NameTokens(t, nfkd) == WithoutStopWords(words) by {
      JoinOfCleanWords(words);
      NameTokensOfCleanText(t, nfkd);
    }
    if t == [] {
      assert Split([], ' ') == [""];
    }
  }

  /** Normalising a normalised name changes nothing, provided the decomposition leaves
      such an ASCII name as it is. */
  lemma NormalizeNameIdempotent(s: string, nfkd: string -> string)
    requires nfkd(NormalizeName(s, nfkd)) == NormalizeName(s, nfkd)
    ensures NormalizeName(NormalizeName(s, nfkd), nfkd) == NormalizeName(s, nfkd)
  {
    if s != [] {
      var words := NameTokens(s, nfkd);
      NameTokensOfCleanWords(words, nfkd);
    }
  }

  /** A normalised name is its surviving words separated by single spaces, so splitting
      it on spaces gives the words back and none of them is a stop word. */
  lemma NormalizedNameWords(s: string, nfkd: string -> string)
    requires s != []
    ensures SingleSpaced(NormalizeName(s, nfkd), ' ')
    ensures SplitNonEmpty(NormalizeName(s, nfkd), ' ') == NameTokens(s, nfkd)
    ensures forall t :: t in SplitNonEmpty(NormalizeName(s, nfkd), ' ') ==> t !in StopWords
  {
    var tokens := NameTokens(s, nfkd);
    JoinIsSingleSpaced(tokens, ' ');
    SplitNonEmptyJoin(tokens, ' ');
  }

  // ---------------------------------------------------------------------------
  // Token-set similarity

  function TokenSet(s: string): set<string> {
    set t | t in SplitNonEmpty(s, ' ')
  }

  lemma UnionSplits<T>(a: set<T>, b: set<T>)
    ensures |a + b| == |a * b| + |a - b| + |b - a|
  {
    assert a + b == (a * b) + (a - b) + (b - a);
    assert (a * b) !! (a - b);
    assert ((a * b) + (a - b)) !! (b - a);
  }

  /** `i` out of `u`, in percent. */
  function Percent(i: nat, u: nat): (r: real)
    requires 0 < u && i <= u
    ensures 0.0 <= r <= 100.0
    ensures r == 100.0 <==> i == u
    ensures r == 0.0 <==> i == 0
  {
    var q := i as real / u as real;
    assert q * u as real == i as real;
    q * 100.0
  }

  /** Intersection over union of two word sets, in percent; the branches on empty sets
      are those of the source. */
  function SetRatio<T>(t1: set<T>, t2: set<T>): (r: real)
    ensures 0.0 <= r <= 100.0
  {
    if |t1| == 0 && |t2| == 0 then 100.0
    else if |t1| == 0 || |t2| == 0 then 0.0
    else
      UnionSplits(t1, t2);
      Percent(|t1 * t2|, |t1 + t2|)
  }

  lemma SetRatioSymmetric<T>(t1: set<T>, t2: set<T>)
    ensures SetRatio(t1, t2) == SetRatio(t2, t1)
  {
    assert t1 * t2 == t2 * t1 && t1 + t2 == t2 + t1;
  }

  lemma SetRatioExtremes<T>(t1: set<T>, t2: set<T>)
    requires |t1| > 0 && |t2| > 0
    ensures SetRatio(t1, t2) == 100.0 <==> t1 == t2
    ensures SetRatio(t1, t2) == 0.0 <==> t1 !! t2
  {
    UnionSplits(t1, t2);
    if |t1 * t2| == |t1 + t2| {
      assert |t1 - t2| == 0 && |t2 - t1| == 0;
      assert t1 == t2 by {
        forall z | z in t1 ensures z in t2 { assert z !in t1 - t2; }
        forall z | z in t2 ensures z in t1 { assert z !in t2 - t1; }
      }
    }
    if t1 == t2 {
      assert t1 * t2 == t1 + t2;
    }
    assert SetRatio(t1, t2) == Percent(|t1 * t2|, |t1 + t2|);
    if |t1 * t2| == 0 {
      forall z | z in t1 ensures z !in t2 {
        assert z !in t1 * t2;
      }
    }
    if t1 !! t2 {
      assert t1 * t2 == {};
    }
  }

  /** `CalculateTokenSetRatio`: Jaccard similarity of the two word sets, in percent. */
  function TokenSetRatio(s1: string, s2: string): (r: real)
    ensures 0.0 <= r <= 100.0
    ensures s1 == [] && s2 == [] ==> r == 100.0
    ensures (s1 == []) != (s2 == []) ==> r == 0.0
  {
    if s1 == [] && s2 == [] then 100.0
    else if s1 == [] || s2 == [] then 0.0
    else SetRatio(TokenSet(s1), TokenSet(s2))
  }

  lemma TokenSetRatioSymmetric(s1: string, s2: string)
    ensures TokenSetRatio(s1, s2) == TokenSetRatio(s2, s1)
  {
    SetRatioSymmetric(TokenSet(s1), TokenSet(s2));
  }

  /** For two names that both have words, the ratio is 100 exactly when the word sets
      agree, and 0 exactly when they share no word. */
  lemma TokenSetRatioExtremes(s1: string, s2: string)
    requires |TokenSet(s1)| > 0 && |TokenSet(s2)| > 0
    ensures TokenSetRatio(s1, s2) == 100.0 <==> TokenSet(s1) == TokenSet(s2)
    ensures TokenSetRatio(s1, s2) == 0.0 <==> TokenSet(s1) !! TokenSet(s2)
  {
    var x :| x in TokenSet(s1);
    assert s1 != [] by { assert x in SplitNonEmpty(s1, ' '); }
    var y :| y in TokenSet(s2);
    assert s2 != [] by { assert y in SplitNonEmpty(s2, ' '); }
    SetRatioExtremes(TokenSet(s1), TokenSet(s2));
  }

  // ---------------------------------------------------------------------------
  // Events and kickoff pairing

  /** One row of an event's `Odds` collection. */
  datatype OddsRow = OddsRow(market: MarketType, team1: real, draw: real, team2: real)

  /** The fields of an `Event` (with its `Odds`) that the engine reads. */
  datatype EventSnapshot = EventSnapshot(
    id: Guid, league: string, kickoff: Ticks, team1: string, team2: string,
    link: Option<string>, odds: seq<OddsRow>)

  /** `Odds.FirstOrDefault(o => o.MarketType == MarketType.Match1X2)`. */
  function First1X2(odds: seq<OddsRow>): (r: Option<OddsRow>)
    ensures r.None? <==> forall i :: 0 <= i < |odds| ==> odds[i].market != Match1X2
    ensures r.Some? ==> exists k :: 0 <= k < |odds| && odds[k] == r.value && r.value.market == Match1X2 &&
                                   forall j :: 0 <= j < k ==> odds[j].market != Match1X2
  {
    if odds == [] then None
    else if odds[0].market == Match1X2 then Some(odds[0])
    else
      var r := First1X2(odds[1..]);
      assert r.Some? ==> exists k :: 0 <= k < |odds| && odds[k] == r.value && r.value.market == Match1X2 &&
                                   forall j :: 0 <= j < k ==> odds[j].market != Match1X2 by {
        if r.Some? {
          var k :| 0 <= k < |odds[1..]| && odds[1..][k] == r.value && r.value.market == Match1X2 &&
                   forall j :: 0 <= j < k ==> odds[1..][j].market != Match1X2;
          assert odds[k + 1] == r.value;
          assert forall j :: 0 <= j < k + 1 ==> odds[j].market != Match1X2 by {
            forall j | 0 <= j < k + 1 ensures odds[j].market != Match1X2 {
              if j > 0 { assert odds[j] == odds[1..][j - 1]; }
            }
          }
        }
      }
      r
  }

  /** `FormatDateTimePython`: the "yyyy-MM-dd, HH:mm" text of a UTC instant determines,
      and is determined by, the minute that contains it; the model keeps that minute. */
  function MinuteKey(t: Ticks): (m: int)
    ensures m * TicksPerMinute <= t < (m + 1) * TicksPerMinute
  {
    t / TicksPerMinute
  }

  const TeamSimilarityThreshold: real := 80.0

  /** How one Pinnacle event compares with a Betby event. */
  datatype PairScore = PairScore(sameMinute: bool, team1: real, team2: real)

  /** The engine's name normaliser as a function value. */
  function Normalizer(nfkd: string -> string): string -> string {
    s => NormalizeName(s, nfkd)
  }

  /** How Pinnacle event `p` compares with Betby event `b` under a name normaliser and a
      name similarity; the engine uses `Normalizer(nfkd)` and `TokenSetRatio`. */
  function ScorePair(b: EventSnapshot, p: EventSnapshot, normalize: string -> string,
                     ratio: (string, string) -> real): (r: PairScore)
    ensures r.sameMinute <==> MinuteKey(b.kickoff) == MinuteKey(p.kickoff)
  {
    PairScore(
      MinuteKey(b.kickoff) == MinuteKey(p.kickoff),
      ratio(normalize(b.team1), normalize(p.team1)),
      ratio(normalize(b.team2), normalize(p.team2)))
  }

  /** With the engine's normaliser and similarity, both team scores are percentages. */
  lemma ScorePairBounds(b: EventSnapshot, p: EventSnapshot, nfkd: string -> string)
    ensures var sc := ScorePair(b, p, Normalizer(nfkd), TokenSetRatio);
      0.0 <= sc.team1 <= 100.0 && 0.0 <= sc.team2 <= 100.0
  {
  }

  function Average(sc: PairScore): real {
    (sc.team1 + sc.team2) / 2.0
  }

  /** A Pinnacle event is a candidate when it kicks off in the same minute and each team
      name scores at least the threshold. */
  predicate Accepts(sc: PairScore) {
    sc.sameMinute && sc.team1 >= TeamSimilarityThreshold && sc.team2 >= TeamSimilarityThreshold
  }

  // ---------------------------------------------------------------------------
  // Best-match search

  datatype MatchState = MatchState(best: Option<nat>, score: real)

  /** The state of the search after the first `n` Pinnacle events: a candidate replaces
      the current best only when its average score is strictly higher. */
  function Scan(scores: seq<PairScore>, n: nat): (st: MatchState)
    requires n <= |scores|
    ensures st.best.Some? ==> st.best.value < n
  {
    if n == 0 then MatchState(None, 0.0)
    else
      var st := Scan(scores, n - 1);
      var sc := scores[n - 1];
      if Accepts(sc) && Average(sc) > st.score then MatchState(Some(n - 1), Average(sc)) else st
  }

  /** The search keeps the first candidate attaining the maximal average score, and finds
      nothing exactly when no candidate is accepted. */
  lemma {:induction false} ScanIsFirstMaximum(scores: seq<PairScore>, n: nat)
    requires n <= |scores|
    ensures var st := Scan(scores, n);
      && (st.best.None? <==> forall j :: 0 <= j < n ==> !Accepts(scores[j]))
      && (st.best.None? ==> st.score == 0.0)
      && (st.best.Some? ==>
            var k := st.best.value;
            && Accepts(scores[k])
            && st.score == Average(scores[k])
            && (forall j :: 0 <= j < n && Accepts(scores[j]) ==> Average(scores[j]) <= st.score)
            && (forall j :: 0 <= j < k && Accepts(scores[j]) ==> Average(scores[j]) < st.score))
  {
    if n > 0 {
      ScanIsFirstMaximum(scores, n - 1);
    }
  }

  function PairScores(b: EventSnapshot, ps: seq<EventSnapshot>, normalize: string -> string,
                      ratio: (string, string) -> real): (r: seq<PairScore>)
    ensures |r| == |ps| && forall i :: 0 <= i < |ps| ==> r[i] == ScorePair(b, ps[i], normalize, ratio)
  {
    seq(|ps|, i requires 0 <= i < |ps| => ScorePair(b, ps[i], normalize, ratio))
  }

  function BestMatch(b: EventSnapshot, ps: seq<EventSnapshot>, normalize: string -> string,
                     ratio: (string, string) -> real): MatchState {
    Scan(PairScores(b, ps, normalize, ratio), |ps|)
  }

  /** The best match of a Betby event is the first Pinnacle event with the highest
      average score among those accepted, and there is none exactly when none is accepted. */
  lemma BestMatchIsFirstMaximum(b: EventSnapshot, ps: seq<EventSnapshot>, normalize: string -> string,
                                ratio: (string, string) -> real)
    ensures var st := BestMatch(b, ps, normalize, ratio);
      && (st.best.None? <==> forall j :: 0 <= j < |ps| ==> !Accepts(ScorePair(b, ps[j], normalize, ratio)))
      && (st.best.Some? ==>
            var k := st.best.value;
            && k < |ps|
            && Accepts(ScorePair(b, ps[k], normalize, ratio))
            && st.score == Average(ScorePair(b, ps[k], normalize, ratio))
            && st.score >= TeamSimilarityThreshold
            && (forall j :: 0 <= j < |ps| && Accepts(ScorePair(b, ps[j], normalize, ratio)) ==>
                  Average(ScorePair(b, ps[j], normalize, ratio)) <= st.score)
            && (forall j :: 0 <= j < k && Accepts(ScorePair(b, ps[j], normalize, ratio)) ==>
                  Average(ScorePair(b, ps[j], normalize, ratio)) < st.score))
  {
    var scores := PairScores(b, ps, normalize, ratio);
    ScanIsFirstMaximum(scores, |ps|);
  }

  /** The inner loop of `CalculateValueBetsAsync` over the Pinnacle events; the engine
      passes `Normalizer(nfkd)` and `TokenSetRatio`. */
  method FindBestMatch(b: EventSnapshot, ps: seq<EventSnapshot>, normalize: string -> string,
                       ratio: (string, string) -> real)
    returns (bestMatch: Option<nat>, bestAvgScore: real)
    ensures MatchState(bestMatch, bestAvgScore) == BestMatch(b, ps, normalize, ratio)
  {
    ghost var scores := PairScores(b, ps, normalize, ratio);
    bestMatch, bestAvgScore := None, 0.0;
    var normBetbyTeam1 := normalize(b.team1);
    var normBetbyTeam2 := normalize(b.team2);
    var betbyDateTime := MinuteKey(b.kickoff);
    for i := 0 to |ps|
      invariant MatchState(bestMatch, bestAvgScore) == Scan(scores, i)
    {
      var p := ps[i];
      if betbyDateTime != MinuteKey(p.kickoff) {
        continue;
      }
      var team1Score := ratio(normBetbyTeam1, normalize(p.team1));
      var team2Score := ratio(normBetbyTeam2, normalize(p.team2));
      var pair := PairScore(true, team1Score, team2Score);
      var avgScore := Average(pair);
      assert pair == scores[i];
      if team1Score >= TeamSimilarityThreshold && team2Score >= TeamSimilarityThreshold {
        if avgScore > bestAvgScore {
          bestAvgScore := avgScore;
          bestMatch := Some(i);
        }
      }
    }
  }

  // ---------------------------------------------------------------------------
  // Expected value

  /** `CalculateEVPython(prob, gain, loss)`. */
  function ExpectedValuePython(prob: real, gain: real, loss: real): real {
    prob * gain - (1.0 - prob) * loss
  }

  /** `CalculateExpectedValue`: the unit-stake expected value, `p·odd − 1`. */
  function CalculateExpectedValue(probability: real, odd: real): (r: real)
    ensures r == probability * odd - 1.0
  {
    ExpectedValuePython(probability, odd - 1.0, 1.0)
  }

  /** `CalculateImpliedProbabilities`: `1/odd` for every odd; a zero odd makes the
      decimal division throw. */
  function CalculateImpliedProbabilities(odds: seq<real>): (r: Result<seq<real>, string>)
    ensures r.Success? <==> forall i :: 0 <= i < |odds| ==> odds[i] != 0.0
    ensures r.Success? ==> |r.value| == |odds| && forall i :: 0 <= i < |odds| ==> r.value[i] * odds[i] == 1.0
  {
    if exists i :: 0 <= i < |odds| && odds[i] == 0.0 then Failure("Attempted to divide by zero.")
    else Success(seq(|odds|, i requires 0 <= i < |odds| => 1.0 / odds[i]))
  }

  datatype Triple = Triple(team1: real, draw: real, team2: real)

  function Max(x: real, y: real): real {
    if x >= y then x else y
  }

  /** The outcome picked for a matched pair, with the odds and probability it was scored by. */
  datatype Choice = Choice(outcome: OutcomeType, ev: real, betbyOdd: real, pinnacleOdd: real, impliedProbability: real)

  datatype Scored = Scored(choice: Choice, maxEv: real)

  /** The scorer of `CalculateEVPythonStyle` for a given probability vector: each outcome's
      expected value at the Betby odd, the maximum, and the first outcome attaining it in
      the order Team1, Draw, Team2. */
  function SelectOutcome(probs: Triple, betby: Triple, pinnacle: Triple): (r: Scored)
    ensures var e1, ed, e2 :=
        CalculateExpectedValue(probs.team1, betby.team1),
        CalculateExpectedValue(probs.draw, betby.draw),
        CalculateExpectedValue(probs.team2, betby.team2);
      && r.choice.ev == r.maxEv
      && r.maxEv >= e1 && r.maxEv >= ed && r.maxEv >= e2
      && (r.maxEv == e1 || r.maxEv == ed || r.maxEv == e2)
      && (r.choice.outcome == Team1Win <==> e1 >= ed && e1 >= e2)
      && (r.choice.outcome == Draw <==> e1 < ed && ed >= e2)
      && (r.choice.outcome == Team2Win <==> e1 < e2 && ed < e2)
      && (r.choice.outcome == Team1Win ==>
            r.choice.betbyOdd == betby.team1 && r.choice.pinnacleOdd == pinnacle.team1 && r.choice.impliedProbability == probs.team1)
      && (r.choice.outcome == Draw ==>
            r.choice.betbyOdd == betby.draw && r.choice.pinnacleOdd == pinnacle.draw && r.choice.impliedProbability == probs.draw)
      && (r.choice.outcome == Team2Win ==>
            r.choice.betbyOdd == betby.team2 && r.choice.pinnacleOdd == pinnacle.team2 && r.choice.impliedProbability == probs.team2)
  {
    var evTeam1 := ExpectedValuePython(probs.team1, betby.team1 - 1.0, 1.0);
    var evDraw := ExpectedValuePython(probs.draw, betby.draw - 1.0, 1.0);
    var evTeam2 := ExpectedValuePython(probs.team2, betby.team2 - 1.0, 1.0);
    var maxEv := Max(Max(evTeam1, evDraw), evTeam2);
    var choice :=
      if evTeam1 == maxEv then Choice(Team1Win, evTeam1, betby.team1, pinnacle.team1, probs.team1)
      else if evDraw == maxEv then Choice(Draw, evDraw, betby.draw, pinnacle.draw, probs.draw)
      else Choice(Team2Win, evTeam2, betby.team2, pinnacle.team2, probs.team2);
    Scored(choice, maxEv)
  }

  function OddsOf(row: OddsRow): Triple {
    Triple(row.team1, row.draw, row.team2)
  }

  /** `CalculateEVPythonStyle`: scores with the raw Pinnacle `1/odd` probabilities (not
      normalised); `None` stands for the division by a zero odd that throws. */
  function CalculateEVPythonStyle(betbyOdds: OddsRow, pinnacleOdds: OddsRow): (r: Option<Scored>)
    ensures r.None? <==> pinnacleOdds.team1 == 0.0 || pinnacleOdds.draw == 0.0 || pinnacleOdds.team2 == 0.0
    ensures r.Some? ==>
      var p := pinnacleOdds;
      r.value == SelectOutcome(Triple(1.0 / p.team1, 1.0 / p.draw, 1.0 / p.team2), OddsOf(betbyOdds), OddsOf(p))
  {
    var implied := CalculateImpliedProbabilities([pinnacleOdds.team1, pinnacleOdds.draw, pinnacleOdds.team2]);
    if implied.Failure? then None
    else
      var probs := Triple(implied.value[0], implied.value[1], implied.value[2]);
      Some(SelectOutcome(probs, OddsOf(betbyOdds), OddsOf(pinnacleOdds)))
  }

  // ---------------------------------------------------------------------------
  // The batch

  const MinimumExpectedValue: real := 0.01

  /** `ValueBetDto`; `id` is the fresh identifier of the `ValueBet` entity it reports. */
  datatype ValueBetDto = ValueBetDto(
    id: Guid, league: string, eventDateTime: Ticks, team1: string, team2: string,
    link: Option<string>, bestOutcome: OutcomeType, betbyOdd: real, pinnacleOdd: real,
    impliedProbability: real, expectedValue: real, confidenceScore: real, calculatedAt: Ticks)

  function ToDto(id: Guid, b: EventSnapshot, c: Choice, confidence: real, now: Ticks): ValueBetDto {
    ValueBetDto(id, b.league, b.kickoff, b.team1, b.team2, b.link, c.outcome,
                c.betbyOdd, c.pinnacleOdd, c.impliedProbability, c.ev, confidence, now)
  }

  /** What one Betby event contributes to the batch: nothing when it has no 1X2 odds,
      no qualifying Pinnacle event, a best match without 1X2 odds, odds that make the EV
      step throw, or a best EV below 1%. `id` is the `Guid.NewGuid()` its `ValueBet`
      receives. */
  function Candidate(b: EventSnapshot, id: Guid, ps: seq<EventSnapshot>, nfkd: string -> string, now: Ticks): Option<ValueBetDto> {
    match First1X2(b.odds)
    case None => None
    case Some(betbyOdds) =>
      var st := BestMatch(b, ps, Normalizer(nfkd), TokenSetRatio);
      match st.best
      case None => None
      case Some(k) =>
        match First1X2(ps[k].odds)
        case None => None
        case Some(pinnacleOdds) =>
          match CalculateEVPythonStyle(betbyOdds, pinnacleOdds)
          case None => None
          case Some(scored) =>
            if scored.maxEv >= MinimumExpectedValue then Some(ToDto(id, b, scored.choice, st.score, now)) else None
  }

  /** The entries of `opts` that are present, in order. */
  function Present<T>(opts: seq<Option<T>>): (r: seq<T>)
    ensures |r| <= |opts|
  {
    if opts == [] then []
    else Present(opts[..|opts| - 1]) + match opts[|opts| - 1] case Some(v) => [v] case None => []
  }

  lemma {:induction false} PresentFrom<T>(opts: seq<Option<T>>)
    ensures forall v :: v in Present(opts) ==> exists i :: 0 <= i < |opts| && opts[i] == Some(v)
  {
    if opts != [] {
      var init := opts[..|opts| - 1];
      PresentFrom(init);
      forall v | v in Present(opts) ensures exists i :: 0 <= i < |opts| && opts[i] == Some(v) {
        if v in Present(init) {
          var i :| 0 <= i < |init| && init[i] == Some(v);
          assert opts[i] == Some(v);
        } else {
          assert opts[|opts| - 1] == Some(v);
        }
      }
    }
  }

  /** What each Betby event contributes, in input order; `newId(i)` is the fresh
      identifier generated for the `i`-th event's value bet. */
  function Candidates(bs: seq<EventSnapshot>, newId: nat -> Guid, ps: seq<EventSnapshot>, nfkd: string -> string, now: Ticks): (r: seq<Option<ValueBetDto>>)
    ensures |r| == |bs|
  {
    if bs == [] then []
    else Candidates(bs[..|bs| - 1], newId, ps, nfkd, now) + [Candidate(bs[|bs| - 1], newId(|bs| - 1), ps, nfkd, now)]
  }

  lemma {:induction false} CandidatesAt(bs: seq<EventSnapshot>, newId: nat -> Guid, ps: seq<EventSnapshot>, nfkd: string -> string, now: Ticks)
    ensures forall i :: 0 <= i < |bs| ==> Candidates(bs, newId, ps, nfkd, now)[i] == Candidate(bs[i], newId(i), ps, nfkd, now)
  {
    if bs != [] {
      var init := bs[..|bs| - 1];
      CandidatesAt(init, newId, ps, nfkd, now);
      forall i | 0 <= i < |bs| ensures Candidates(bs, newId, ps, nfkd, now)[i] == Candidate(bs[i], newId(i), ps, nfkd, now) {
        if i < |init| {
          assert bs[i] == init[i];
        }
      }
    }
  }

  /** The acceptance rule of one Betby event, both ways: it yields a value bet exactly
      when it and its best Pinnacle match carry 1X2 odds, the EV step succeeds and the
      best EV reaches 1%; the bet carries the chosen outcome's EV and the match score. */
  lemma CandidateMeaning(b: EventSnapshot, id: Guid, ps: seq<EventSnapshot>, nfkd: string -> string, now: Ticks)
    ensures Candidate(b, id, ps, nfkd, now).Some? <==>
      && First1X2(b.odds).Some?
      && BestMatch(b, ps, Normalizer(nfkd), TokenSetRatio).best.Some?
      && BestMatch(b, ps, Normalizer(nfkd), TokenSetRatio).best.value < |ps|
      && First1X2(ps[BestMatch(b, ps, Normalizer(nfkd), TokenSetRatio).best.value].odds).Some?
      && CalculateEVPythonStyle(First1X2(b.odds).value, First1X2(ps[BestMatch(b, ps, Normalizer(nfkd), TokenSetRatio).best.value].odds).value).Some?
      && CalculateEVPythonStyle(First1X2(b.odds).value, First1X2(ps[BestMatch(b, ps, Normalizer(nfkd), TokenSetRatio).best.value].odds).value).value.maxEv >= MinimumExpectedValue
    ensures Candidate(b, id, ps, nfkd, now).Some? ==>
      var v := Candidate(b, id, ps, nfkd, now).value;
      var k := BestMatch(b, ps, Normalizer(nfkd), TokenSetRatio).best.value;
      && v.id == id
      && v.league == b.league && v.team1 == b.team1 && v.team2 == b.team2 && v.link == b.link
      && v.eventDateTime == b.kickoff && v.calculatedAt == now
      && v.expectedValue >= MinimumExpectedValue
      && v.confidenceScore == Average(ScorePair(b, ps[k], Normalizer(nfkd), TokenSetRatio))
      && v.confidenceScore >= TeamSimilarityThreshold
      && Accepts(ScorePair(b, ps[k], Normalizer(nfkd), TokenSetRatio))
      && v.expectedValue == CalculateEVPythonStyle(First1X2(b.odds).value, First1X2(ps[k].odds).value).value.maxEv
  {
    BestMatchIsFirstMaximum(b, ps, Normalizer(nfkd), TokenSetRatio);
  }

  // ---------------------------------------------------------------------------
  // Ordering by expected value (`OrderByDescending(vb => vb.ExpectedValue)`)

  predicate SortedDescending<T>(s: seq<T>, key: T -> real) {
    forall i, j :: 0 <= i < j < |s| ==> key(s[i]) >= key(s[j])
  }

  /** Inserts `x` after every entry whose key is at least its own. */
  function InsertDescending<T>(x: T, s: seq<T>, key: T -> real): seq<T> {
    if s == [] then [x]
    else if key(s[0]) >= key(x) then [s[0]] + InsertDescending(x, s[1..], key)
    else [x] + s
  }

  lemma SortedDescendingCons<T>(h: T, t: seq<T>, key: T -> real)
    requires SortedDescending(t, key)
    requires forall v :: v in t ==> key(v) <= key(h)
    ensures SortedDescending([h] + t, key)
  {
    var r := [h] + t;
    forall i, j | 0 <= i < j < |r| ensures key(r[i]) >= key(r[j]) {
      assert r[j] == t[j - 1];
      if i > 0 {
        assert r[i] == t[i - 1];
      }
    }
  }

  lemma {:induction false} InsertDescendingSorted<T>(x: T, s: seq<T>, key: T -> real)
    requires SortedDescending(s, key)
    ensures var r := InsertDescending(x, s, key);
      && multiset(r) == multiset(s) + multiset{x}
      && (forall v :: v in r ==> v == x || v in s)
      && SortedDescending(r, key)
  {
    if s == [] {
    } else if key(s[0]) >= key(x) {
      var rest := InsertDescending(x, s[1..], key);
      InsertDescendingSorted(x, s[1..], key);
      assert s == [s[0]] + s[1..];
      forall v | v in rest ensures key(v) <= key(s[0]) {
        if v != x {
          var k :| 0 <= k < |s[1..]| && s[1..][k] == v;
          assert s[k + 1] == v;
        }
      }
      SortedDescendingCons(s[0], rest, key);
    } else {
      forall v | v in s ensures key(v) <= key(x) {
        var k :| 0 <= k < |s| && s[k] == v;
        assert key(s[0]) >= key(s[k]);
      }
      SortedDescendingCons(x, s, key);
    }
  }

  function SortDescending<T>(s: seq<T>, key: T -> real): (r: seq<T>)
    ensures multiset(r) == multiset(s)
    ensures SortedDescending(r, key)
  {
    if s == [] then []
    else
      var init := SortDescending(s[..|s| - 1], key);
      InsertDescendingSorted(s[|s| - 1], init, key);
      assert s == s[..|s| - 1] + [s[|s| - 1]];
      InsertDescending(s[|s| - 1], init, key)
  }

  function ExpectedValueOf(v: ValueBetDto): real {
    v.expectedValue
  }

  /** The body of the batch's outer loop for one Betby event. */
  method EvaluateBetbyEvent(betbyEvent: EventSnapshot, id: Guid, pinnacle: seq<EventSnapshot>, nfkd: string -> string, now: Ticks)
    returns (valueBet: Option<ValueBetDto>)
    ensures valueBet == Candidate(betbyEvent, id, pinnacle, nfkd, now)
  {
    valueBet := None;
    var betbyOdds := First1X2(betbyEvent.odds);
    if betbyOdds.None? {
      return;
    }
    var bestMatch, bestAvgScore := FindBestMatch(betbyEvent, pinnacle, Normalizer(nfkd), TokenSetRatio);
    if bestMatch.Some? {
      var pinnacleOdds := First1X2(pinnacle[bestMatch.value].odds);
      if pinnacleOdds.None? {
        return;
      }
      var scored := CalculateEVPythonStyle(betbyOdds.value, pinnacleOdds.value);
      if scored.Some? && scored.value.maxEv >= MinimumExpectedValue {
        valueBet := Some(ToDto(id, betbyEvent, scored.value.choice, bestAvgScore, now));
      }
    }
  }

  /** `CalculateValueBetsAsync` without the database: the candidates of every Betby event,
      in input order, sorted by EV descending. */
  method CalculateValueBets(betby: seq<EventSnapshot>, newId: nat -> Guid, pinnacle: seq<EventSnapshot>, nfkd: string -> string, now: Ticks)
    returns (valueBets: seq<ValueBetDto>)
    ensures valueBets == SortDescending(Present(Candidates(betby, newId, pinnacle, nfkd, now)), ExpectedValueOf)
  {
    var found: seq<ValueBetDto> := [];
    for i := 0 to |betby|
      invariant found == Present(Candidates(betby[..i], newId, pinnacle, nfkd, now))
    {
      var valueBet := EvaluateBetbyEvent(betby[i], newId(i), pinnacle, nfkd, now);
      assert betby[..i + 1][..i] == betby[..i];
      if valueBet.Some? {
        found := found + [valueBet.value];
      }
    }
    assert betby[..|betby|] == betby;
    valueBets := SortDescending(found, ExpectedValueOf);
  }

  /** What the batch promises about its output: sorted by EV, a permutation of the
      per-event candidates, and every entry an accepted value bet of some Betby event. */
  lemma CalculatedValueBetsAreAccepted(betby: seq<EventSnapshot>, newId: nat -> Guid, pinnacle: seq<EventSnapshot>, nfkd: string -> string, now: Ticks)
    ensures var out := SortDescending(Present(Candidates(betby, newId, pinnacle, nfkd, now)), ExpectedValueOf);
      && SortedDescending(out, ExpectedValueOf)
      && |out| <= |betby|
      && forall v :: v in out ==>
           && v.expectedValue >= MinimumExpectedValue
           && v.confidenceScore >= TeamSimilarityThreshold
           && exists i :: 0 <= i < |betby| && v.id == newId(i) && Candidate(betby[i], newId(i), pinnacle, nfkd, now) == Some(v)
  {
    var cs := Candidates(betby, newId, pinnacle, nfkd, now);
    var c := Present(cs);
    var out := SortDescending(c, ExpectedValueOf);
    PresentFrom(cs);
    CandidatesAt(betby, newId, pinnacle, nfkd, now);
    assert |out| == |multiset(out)| == |multiset(c)| == |c|;
    forall v | v in out
      ensures v.expectedValue >= MinimumExpectedValue
      ensures v.confidenceScore >= TeamSimilarityThreshold
      ensures exists i :: 0 <= i < |betby| && v.id == newId(i) && Candidate(betby[i], newId(i), pinnacle, nfkd, now) == Some(v)
    {
      assert v in multiset(out);
      assert v in c;
      var i :| 0 <= i < |cs| && cs[i] == Some(v);
      CandidateMeaning(betby[i], newId(i), pinnacle, nfkd, now);
    }
  }
}
