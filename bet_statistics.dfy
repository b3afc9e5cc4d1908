/** `GetBetStatisticsQueryHandler.Handle`: counts, stakes, profit, win rate, return on
    investment, average odds and the biggest win and loss over one user's bets. */
module BetStatistics {
  import opened Enums
  import opened BetEntity

  /** The bets of one user, in stored order. */
  function UserBets(bets: seq<BetRecord>, userId: Guid): (r: seq<BetRecord>)
    ensures |r| <= |bets|
    ensures forall i :: 0 <= i < |r| ==> r[i].userId == userId && r[i] in bets
    ensures forall b :: b in bets && b.userId == userId ==> b in r
    ensures forall b :: multiset(r)[b] == if b.userId == userId then multiset(bets)[b] else 0
  {
    if bets == [] then []
    else
      assert bets == [bets[0]] + bets[1..];
      if bets[0].userId == userId then [bets[0]] + UserBets(bets[1..], userId)
    else UserBets(bets[1..], userId)
  }

  /** `Count(b => b.Status == status)`. */
  function CountStatus(bets: seq<BetRecord>, status: BetStatus): (n: nat)
    ensures n <= |bets|
    ensures n == 0 <==> forall i :: 0 <= i < |bets| ==> bets[i].status != status
  {
    if bets == [] then 0
    else (if bets[0].status == status then 1 else 0) + CountStatus(bets[1..], status)
  }

  /** `Sum(b => b.Amount)`. */
  function TotalStaked(bets: seq<BetRecord>): real {
    if bets == [] then 0.0 else bets[0].amount + TotalStaked(bets[1..])
  }

  /** `Sum(b => b.CalculateProfit())`. */
  function TotalProfit(bets: seq<BetRecord>): real {
    if bets == [] then 0.0
    else Profit(bets[0].status, bets[0].amount, bets[0].potentialReturn) + TotalProfit(bets[1..])
  }

  /** `Sum(b => b.Odds)`. */
  function SumOdds(bets: seq<BetRecord>): real {
    if bets == [] then 0.0 else bets[0].odds + SumOdds(bets[1..])
  }

  /** Won bets over won and lost bets, as a percentage; void and open bets are left
      out, and with nothing won or lost the rate is 0. */
  function WinRate(won: nat, lost: nat): (r: real)
    ensures won + lost == 0 ==> r == 0.0
    ensures won + lost > 0 ==> r * (won + lost) as real == won as real * 100.0
    ensures 0.0 <= r <= 100.0
  {
    if won + lost > 0 then Percentage(won as real, (won + lost) as real) else 0.0
  }

  /** `x / y * 100` for a positive `y`. */
  function Percentage(x: real, y: real): (r: real)
    requires y > 0.0
    ensures r * y == x * 100.0
    ensures 0.0 <= x <= y ==> 0.0 <= r <= 100.0
  {
    x / y * 100.0
  }

  /** Return on investment: profit over stakes as a percentage, 0 with nothing staked. */
  function Roi(profit: real, staked: real): (r: real)
    ensures staked > 0.0 ==> r * staked == profit * 100.0
    ensures staked <= 0.0 ==> r == 0.0
  {
    if staked > 0.0 then Percentage(profit, staked) else 0.0
  }

  /** `Average(b => b.Odds)`, or 0 for no bets. */
  function AverageOdds(bets: seq<BetRecord>): (r: real)
    ensures bets == [] ==> r == 0.0
    ensures bets != [] ==> r * |bets| as real == SumOdds(bets)
  {
    if bets == [] then 0.0 else SumOdds(bets) / |bets| as real
  }

  /** The profits of the won bets, in order. */
  function WonProfits(bets: seq<BetRecord>): (r: seq<real>)
    ensures |r| == CountStatus(bets, Won)
  {
    if bets == [] then []
    else if bets[0].status == Won then [Profit(Won, bets[0].amount, bets[0].potentialReturn)] + WonProfits(bets[1..])
    else WonProfits(bets[1..])
  }

  /** The absolute profits of the lost bets, in order. */
  function LostLosses(bets: seq<BetRecord>): (r: seq<real>)
    ensures |r| == CountStatus(bets, Lost)
  {
    if bets == [] then []
    else if bets[0].status == Lost then [Abs(Profit(Lost, bets[0].amount, bets[0].potentialReturn))] + LostLosses(bets[1..])
    else LostLosses(bets[1..])
  }

  function Abs(x: real): (r: real)
    ensures r >= 0.0 && (r == x || r == -x)
  {
    if x < 0.0 then -x else x
  }

  /** `DefaultIfEmpty(0).Max()`: 0 for no values, otherwise the largest value. */
  function MaxOrZero(xs: seq<real>): (m: real)
    ensures xs == [] ==> m == 0.0
    ensures xs != [] ==> m in xs && forall i :: 0 <= i < |xs| ==> xs[i] <= m
  {
    if xs == [] then 0.0
    else if |xs| == 1 then xs[0]
    else
      var rest := MaxOrZero(xs[1..]);
      assert forall i :: 1 <= i < |xs| ==> xs[i] == xs[1..][i - 1];
      if xs[0] >= rest then xs[0] else rest
  }

  datatype Statistics = Statistics(
    totalBets: nat, openBets: nat, wonBets: nat, lostBets: nat, voidBets: nat,
    totalStaked: real, totalProfit: real, winRate: real, roi: real, averageOdds: real,
    biggestWin: real, biggestLoss: real, profitLoss: real)

  /** `Handle`: the statistics of the bets of `userId`. */
  function GetBetStatistics(bets: seq<BetRecord>, userId: Guid): (s: Statistics)
    ensures s.totalBets == |UserBets(bets, userId)|
    ensures 0.0 <= s.winRate <= 100.0
    ensures s.profitLoss == s.totalProfit
    ensures s.biggestLoss >= 0.0
    ensures s.totalBets == 0 ==> s.averageOdds == 0.0 && s.totalStaked == 0.0 && s.roi == 0.0
    ensures var all := UserBets(bets, userId);
      && (forall i :: 0 <= i < |all| && all[i].status == Lost ==> LossOf(all[i]) <= s.biggestLoss)
      && (s.lostBets > 0 ==> exists i :: 0 <= i < |all| && all[i].status == Lost && LossOf(all[i]) == s.biggestLoss)
      && (s.lostBets == 0 ==> s.biggestLoss == 0.0)
      && (forall i :: 0 <= i < |all| && all[i].status == Won ==> WinOf(all[i]) <= s.biggestWin)
      && (s.wonBets > 0 ==> exists i :: 0 <= i < |all| && all[i].status == Won && WinOf(all[i]) == s.biggestWin)
      && (s.wonBets == 0 ==> s.biggestWin == 0.0)
  {
    var all := UserBets(bets, userId);
    BiggestLossIsMaximum(all);
    BiggestWinIsMaximum(all);
    var won := CountStatus(all, Won);
    var lost := CountStatus(all, Lost);
    var totalStaked := TotalStaked(all);
    var totalProfit := TotalProfit(all);
    LossesNonNegative(all);
    Statistics(
      |all|, CountStatus(all, Open), won, lost, CountStatus(all, Void),
      totalStaked, totalProfit, WinRate(won, lost), Roi(totalProfit, totalStaked), AverageOdds(all),
      MaxOrZero(WonProfits(all)), MaxOrZero(LostLosses(all)), totalProfit)
  }

  /** Every bet has one status, so the four counted statuses never exceed the total;
      they reach it exactly when no bet is cashed out. */
  lemma {:induction false} StatusCountsBounded(bets: seq<BetRecord>)
    ensures CountStatus(bets, Open) + CountStatus(bets, Won) + CountStatus(bets, Lost) + CountStatus(bets, Void)
            == |bets| - CountStatus(bets, CashedOut)
  {
    if bets != [] {
      StatusCountsBounded(bets[1..]);
    }
  }

  /** The biggest loss is never negative. */
  lemma {:induction false} LossesNonNegative(bets: seq<BetRecord>)
    ensures MaxOrZero(LostLosses(bets)) >= 0.0
  {
    var xs := LostLosses(bets);
    if xs != [] {
      AllLossesNonNegative(bets);
    }
  }

  lemma {:induction false} AllLossesNonNegative(bets: seq<BetRecord>)
    ensures forall i :: 0 <= i < |LostLosses(bets)| ==> LostLosses(bets)[i] >= 0.0
  {
    if bets != [] {
      AllLossesNonNegative(bets[1..]);
    }
  }

  /** Over valid bets every win has a positive profit, so the biggest win is never
      negative, and it is positive as soon as one bet was won. */
  lemma {:induction false} BiggestWinNonNegative(bets: seq<BetRecord>)
    requires forall i :: 0 <= i < |bets| ==> ValidBetRecord(bets[i])
    ensures MaxOrZero(WonProfits(bets)) >= 0.0
    ensures CountStatus(bets, Won) > 0 ==> MaxOrZero(WonProfits(bets)) > 0.0
  {
    WonProfitsPositive(bets);
  }

  lemma {:induction false} WonProfitsPositive(bets: seq<BetRecord>)
    requires forall i :: 0 <= i < |bets| ==> ValidBetRecord(bets[i])
    ensures forall i :: 0 <= i < |WonProfits(bets)| ==> WonProfits(bets)[i] > 0.0
  {
    if bets != [] {
      assert ValidBetRecord(bets[0]);
      ReturnExceedsStake(bets[0].amount, bets[0].odds);
      WonProfitsPositive(bets[1..]);
    }
  }

  /** The biggest win is the profit of some won bet and at least the profit of every
      won bet. */
  lemma {:induction false} BiggestWinIsMaximum(bets: seq<BetRecord>)
    ensures forall i :: 0 <= i < |bets| && bets[i].status == Won ==>
      Profit(Won, bets[i].amount, bets[i].potentialReturn) <= MaxOrZero(WonProfits(bets))
    ensures CountStatus(bets, Won) > 0 ==>
      exists i :: 0 <= i < |bets| && bets[i].status == Won &&
        Profit(Won, bets[i].amount, bets[i].potentialReturn) == MaxOrZero(WonProfits(bets))
  {
    WonProfitsAreWins(bets);
  }

  /** A value is among the won profits exactly when it is the profit of a won bet. */
  lemma {:induction false} WonProfitsAreWins(bets: seq<BetRecord>)
    ensures forall i :: 0 <= i < |bets| && bets[i].status == Won ==>
      Profit(Won, bets[i].amount, bets[i].potentialReturn) in WonProfits(bets)
    ensures forall x :: x in WonProfits(bets) ==>
      exists i :: 0 <= i < |bets| && bets[i].status == Won && x == Profit(Won, bets[i].amount, bets[i].potentialReturn)
  {
    if bets != [] {
      WonProfitsAreWins(bets[1..]);
      forall x | x in WonProfits(bets)
        ensures exists i :: 0 <= i < |bets| && bets[i].status == Won && x == Profit(Won, bets[i].amount, bets[i].potentialReturn)
      {
        if bets[0].status == Won && x == Profit(Won, bets[0].amount, bets[0].potentialReturn) {
        } else {
          var j :| 0 <= j < |bets[1..]| && bets[1..][j].status == Won
                   && x == Profit(Won, bets[1..][j].amount, bets[1..][j].potentialReturn);
          assert bets[j + 1] == bets[1..][j];
        }
      }
      forall i | 0 <= i < |bets| && bets[i].status == Won
        ensures Profit(Won, bets[i].amount, bets[i].potentialReturn) in WonProfits(bets)
      {
        if i > 0 {
          assert bets[i] == bets[1..][i - 1];
        }
      }
    }
  }

  /** The profit of a won bet. */
  function WinOf(b: BetRecord): real {
    Profit(Won, b.amount, b.potentialReturn)
  }

  /** The absolute loss of a lost bet. */
  function LossOf(b: BetRecord): real {
    Abs(Profit(Lost, b.amount, b.potentialReturn))
  }

  /** The biggest loss is the absolute profit of some lost bet and at least that of
      every lost bet. */
  lemma {:induction false} BiggestLossIsMaximum(bets: seq<BetRecord>)
    ensures forall i :: 0 <= i < |bets| && bets[i].status == Lost ==>
      LossOf(bets[i]) <= MaxOrZero(LostLosses(bets))
    ensures CountStatus(bets, Lost) > 0 ==>
      exists i :: 0 <= i < |bets| && bets[i].status == Lost && LossOf(bets[i]) == MaxOrZero(LostLosses(bets))
  {
    LostLossesAreLosses(bets);
  }

  /** A value is among the lost amounts exactly when it is the absolute profit of a lost
      bet. */
  lemma {:induction false} LostLossesAreLosses(bets: seq<BetRecord>)
    ensures forall i :: 0 <= i < |bets| && bets[i].status == Lost ==> LossOf(bets[i]) in LostLosses(bets)
    ensures forall x :: x in LostLosses(bets) ==>
      exists i :: 0 <= i < |bets| && bets[i].status == Lost && x == LossOf(bets[i])
  {
    if bets != [] {
      LostLossesAreLosses(bets[1..]);
      forall x | x in LostLosses(bets)
        ensures exists i :: 0 <= i < |bets| && bets[i].status == Lost && x == LossOf(bets[i])
      {
        if bets[0].status == Lost && x == LossOf(bets[0]) {
        } else {
          var j :| 0 <= j < |bets[1..]| && bets[1..][j].status == Lost && x == LossOf(bets[1..][j]);
          assert bets[j + 1] == bets[1..][j];
        }
      }
      forall i | 0 <= i < |bets| && bets[i].status == Lost ensures LossOf(bets[i]) in LostLosses(bets) {
        if i > 0 {
          assert bets[i] == bets[1..][i - 1];
        }
      }
    }
  }

  /** Over valid bets the total profit is what the settled bets returned minus what they
      staked: open bets count for nothing. */
  lemma {:induction false} TotalProfitIsReturnsMinusStakes(bets: seq<BetRecord>)
    requires forall i :: 0 <= i < |bets| ==> ValidBetRecord(bets[i])
    ensures TotalProfit(bets) == SettledReturns(bets) - SettledStakes(bets)
  {
    if bets != [] {
      var b := bets[0];
      assert ValidBetRecord(b);
      TotalProfitIsReturnsMinusStakes(bets[1..]);
    }
  }

  /** `Sum(b => b.ActualReturn)` over the settled bets. */
  function SettledReturns(bets: seq<BetRecord>): real {
    if bets == [] then 0.0
    else (if bets[0].status != Open && bets[0].actualReturn.Some? then bets[0].actualReturn.value else 0.0)
         + SettledReturns(bets[1..])
  }

  /** `Sum(b => b.Amount)` over the settled bets. */
  function SettledStakes(bets: seq<BetRecord>): real {
    if bets == [] then 0.0
    else (if bets[0].status != Open then bets[0].amount else 0.0) + SettledStakes(bets[1..])
  }

  /** Over valid bets nobody loses more than they staked, and the average price of a
      non-empty list is above evens. */
  lemma {:induction false} ProfitBoundedByStake(bets: seq<BetRecord>)
    requires forall i :: 0 <= i < |bets| ==> ValidBetRecord(bets[i])
    ensures TotalProfit(bets) >= -TotalStaked(bets)
    ensures bets != [] ==> SumOdds(bets) > |bets| as real
  {
    if bets != [] {
      assert ValidBetRecord(bets[0]);
      ReturnExceedsStake(bets[0].amount, bets[0].odds);
      ProfitBoundedByStake(bets[1..]);
    }
  }
}
