/** `GetDashboardMetricsQueryHandler`: the dashboard's totals, win rate, profit and
    active bets for the current period, each compared with the period before it. */
module DashboardMetrics {
  import opened Wrappers
  import opened Text
  import opened Enums
  import opened BetEntity
  import opened BetStatistics
  import opened ApiResponses

  const DefaultPeriodInDays: int := 30
  const FewBetsWarning: string := "Statistics may not be reliable with fewer than 5 bets"
  const NoPreviousDataWarning: string := "No previous period data available for comparison"
  const UserNotFoundError: string := "User not found"
  /** Below this many bets in the current period the statistics are flagged. */
  const ReliableBetCount: nat := 5

  datatype PeriodMetrics = PeriodMetrics(totalBets: nat, winRate: real, totalProfit: real)

  datatype DashboardMetricDto = DashboardMetricDto(
    title: string, value: real, unit: string, changeValue: Option<real>, changeUnit: string, changeText: string)

  datatype DashboardMetricsDto = DashboardMetricsDto(
    total: DashboardMetricDto, winRate: DashboardMetricDto, profit: DashboardMetricDto, active: DashboardMetricDto)

  /** `Count(b => b.Status != BetStatus.Open)`. */
  function CountSettled(bets: seq<BetRecord>): (n: nat)
    ensures n <= |bets|
  {
    if bets == [] then 0 else (if bets[0].status != Open then 1 else 0) + CountSettled(bets[1..])
  }

  /** Every won bet is a settled one. */
  lemma {:induction false} WonAmongSettled(bets: seq<BetRecord>)
    ensures CountStatus(bets, Won) <= CountSettled(bets)
  {
    if bets != [] {
      WonAmongSettled(bets[1..]);
    }
  }

  /** `Where(b => b.Status == BetStatus.Won).Sum(b => b.ActualReturn ?? 0)`. */
  function WonReturns(bets: seq<BetRecord>): real {
    if bets == [] then 0.0
    else (if bets[0].status == Won then (if bets[0].actualReturn.Some? then bets[0].actualReturn.value else 0.0) else 0.0)
         + WonReturns(bets[1..])
  }

  /** `CalculatePeriodMetrics`: the win rate counts wins among all settled bets (void
      bets included), and the profit is what won bets returned minus every stake. */
  function CalculatePeriodMetrics(bets: seq<BetRecord>): (m: PeriodMetrics)
    ensures m.totalBets == |bets|
    ensures CountStatus(bets, Won) <= CountSettled(bets)
    ensures m.winRate == SettledWinRate(CountStatus(bets, Won), CountSettled(bets))
    ensures 0.0 <= m.winRate <= 100.0
    ensures m.totalProfit == WonReturns(bets) - TotalStaked(bets)
  {
    var won := CountStatus(bets, Won);
    var settled := CountSettled(bets);
    WonAmongSettled(bets);
    var winRate := SettledWinRate(won, settled);
    PeriodMetrics(|bets|, winRate, WonReturns(bets) - TotalStaked(bets))
  }

  /** Wins over settled bets as a percentage, 0 when nothing is settled. */
  function SettledWinRate(won: nat, settled: nat): (r: real)
    requires won <= settled
    ensures 0.0 <= r <= 100.0
    ensures settled == 0 ==> r == 0.0
    ensures settled > 0 ==> r * settled as real == won as real * 100.0
  {
    if settled > 0 then Percentage(won as real, settled as real) else 0.0
  }

  /** `Sum(b => b.Amount)` over the bets with one status. */
  function StakesWithStatus(bets: seq<BetRecord>, status: BetStatus): real {
    if bets == [] then 0.0
    else (if bets[0].status == status then bets[0].amount else 0.0) + StakesWithStatus(bets[1..], status)
  }

  /** Over valid bets the dashboard's profit is the statistics' profit less the stakes
      still open and the stakes of void bets: the dashboard counts both as lost, though a
      void bet's stake is refunded. */
  lemma {:induction false} PeriodProfitCountsOpenAndVoidStakesAsLost(bets: seq<BetRecord>)
    requires forall i :: 0 <= i < |bets| ==> ValidBetRecord(bets[i])
    ensures CalculatePeriodMetrics(bets).totalProfit
            == TotalProfit(bets) - StakesWithStatus(bets, Open) - StakesWithStatus(bets, Void)
  {
    PeriodProfitIdentity(bets);
  }

  lemma {:induction false} PeriodProfitIdentity(bets: seq<BetRecord>)
    requires forall i :: 0 <= i < |bets| ==> ValidBetRecord(bets[i])
    ensures WonReturns(bets) - TotalStaked(bets)
            == TotalProfit(bets) - StakesWithStatus(bets, Open) - StakesWithStatus(bets, Void)
  {
    if bets != [] {
      assert ValidBetRecord(bets[0]);
      PeriodProfitIdentity(bets[1..]);
    }
  }

  /** `CalculatePercentageChange`: from a zero baseline any rise counts as 100%;
      otherwise the change relative to the old value. */
  function PercentageChange(oldValue: real, newValue: real): (r: real)
    ensures oldValue == 0.0 ==> r == (if newValue > 0.0 then 100.0 else 0.0)
    ensures oldValue != 0.0 ==> r * oldValue == (newValue - oldValue) * 100.0
  {
    if oldValue == 0.0 then (if newValue > 0.0 then 100.0 else 0.0)
    else (newValue - oldValue) / oldValue * 100.0
  }

  /** From a positive baseline the change is positive exactly when the value rose; from
      a negative one (a loss) the sign is reversed, so a smaller loss shows as a fall. */
  lemma PercentageChangeSign(oldValue: real, newValue: real)
    ensures oldValue > 0.0 ==> (PercentageChange(oldValue, newValue) > 0.0 <==> newValue > oldValue)
    ensures oldValue < 0.0 ==> (PercentageChange(oldValue, newValue) > 0.0 <==> newValue < oldValue)
    ensures PercentageChange(oldValue, newValue) == 0.0 <==> newValue == oldValue || (oldValue == 0.0 && newValue < 0.0)
  {
    var r := PercentageChange(oldValue, newValue);
    if oldValue > 0.0 {
      if r > 0.0 { assert r * oldValue > 0.0; } else { assert r * oldValue <= 0.0; }
    } else if oldValue < 0.0 {
      if r > 0.0 { assert r * oldValue < 0.0; } else { assert r * oldValue >= 0.0; }
    }
  }

  /** The two windows: the current one starts `days` days before `now`, and the
      previous one is the `days` days before that. */
  function PeriodStart(now: Ticks, days: int): Ticks {
    now - days * TicksPerDay
  }

  /** `request.PeriodInDays ?? 30`. */
  function PeriodInDays(requested: Option<int>): (d: int)
    ensures requested.None? ==> d == DefaultPeriodInDays
    ensures requested.Some? ==> d == requested.value
  {
    if requested.Some? then requested.value else DefaultPeriodInDays
  }

  /** The user's bets placed at or after `start`. */
  function CurrentPeriodBets(bets: seq<BetRecord>, userId: Guid, start: Ticks): (r: seq<BetRecord>)
    ensures forall i :: 0 <= i < |r| ==> r[i] in bets && r[i].userId == userId && r[i].placedAt >= start
    ensures forall b :: b in bets && b.userId == userId && b.placedAt >= start ==> b in r
    ensures forall b :: multiset(r)[b] == if b.userId == userId && b.placedAt >= start then multiset(bets)[b] else 0
  {
    if bets == [] then []
    else
      assert bets == [bets[0]] + bets[1..];
      if bets[0].userId == userId && bets[0].placedAt >= start then [bets[0]] + CurrentPeriodBets(bets[1..], userId, start)
    else CurrentPeriodBets(bets[1..], userId, start)
  }

  /** The user's bets placed in `[previousStart, start)`. */
  function PreviousPeriodBets(bets: seq<BetRecord>, userId: Guid, previousStart: Ticks, start: Ticks)
    : (r: seq<BetRecord>)
    ensures forall i :: 0 <= i < |r| ==>
      r[i] in bets && r[i].userId == userId && previousStart <= r[i].placedAt < start
    ensures forall b :: b in bets && b.userId == userId && previousStart <= b.placedAt < start ==> b in r
    ensures forall b :: multiset(r)[b] == (if b.userId == userId && previousStart <= b.placedAt < start
                                           then multiset(bets)[b] else 0)
  {
    if bets == [] then []
    else
      assert bets == [bets[0]] + bets[1..];
      if bets[0].userId == userId && previousStart <= bets[0].placedAt < start then
      [bets[0]] + PreviousPeriodBets(bets[1..], userId, previousStart, start)
    else PreviousPeriodBets(bets[1..], userId, previousStart, start)
  }

  /** The user's open bets, whenever they were placed. */
  function ActiveBets(bets: seq<BetRecord>, userId: Guid): (r: seq<BetRecord>)
    ensures forall i :: 0 <= i < |r| ==> r[i] in bets && r[i].userId == userId && r[i].status == Open
    ensures forall b :: b in bets && b.userId == userId && b.status == Open ==> b in r
    ensures forall b :: multiset(r)[b] == if b.userId == userId && b.status == Open then multiset(bets)[b] else 0
  {
    if bets == [] then []
    else
      assert bets == [bets[0]] + bets[1..];
      if bets[0].userId == userId && bets[0].status == Open then [bets[0]] + ActiveBets(bets[1..], userId)
    else ActiveBets(bets[1..], userId)
  }

  /** The current and previous windows share no bet, and together with each other they
      hold every bet of the user placed since the previous window opened. */
  lemma WindowsPartition(bets: seq<BetRecord>, userId: Guid, now: Ticks, days: int)
    ensures var start := PeriodStart(now, days);
      var previousStart := PeriodStart(start, days);
      && (forall b :: b in CurrentPeriodBets(bets, userId, start) ==> b !in PreviousPeriodBets(bets, userId, previousStart, start))
      && (forall b :: b in bets && b.userId == userId && b.placedAt >= previousStart ==>
            b in CurrentPeriodBets(bets, userId, start) || b in PreviousPeriodBets(bets, userId, previousStart, start))
  {
    var start := PeriodStart(now, days);
    var previousStart := PeriodStart(start, days);
    forall b | b in CurrentPeriodBets(bets, userId, start)
      ensures b !in PreviousPeriodBets(bets, userId, previousStart, start)
    {
      var current := CurrentPeriodBets(bets, userId, start);
      var i :| 0 <= i < |current| && current[i] == b;
      assert b.placedAt >= start;
    }
  }

  /** The number of bets that satisfy `p`. */
  function CountWhere(bets: seq<BetRecord>, p: BetRecord -> bool): (n: nat)
    ensures n <= |bets|
  {
    if bets == [] then 0 else (if p(bets[0]) then 1 else 0) + CountWhere(bets[1..], p)
  }

  /** `"{n} ending today"`, or the message for none. */
  function EndingTodayText(n: nat): string {
    if n > 0 then NatToString(n) + " ending today" else "No bets ending today"
  }

  /** The four cards, built from the two periods' metrics. */
  function MetricsDto(current: PeriodMetrics, previous: PeriodMetrics, activeCount: nat, endingToday: nat)
    : (d: DashboardMetricsDto)
    ensures d.total.value == current.totalBets as real
    ensures d.total.changeValue == Some(PercentageChange(previous.totalBets as real, current.totalBets as real))
    ensures d.winRate.value == current.winRate
    ensures d.winRate.changeValue == Some(PercentageChange(previous.winRate, current.winRate))
    ensures d.profit.value == current.totalProfit
    ensures d.profit.changeValue == Some(PercentageChange(previous.totalProfit, current.totalProfit))
    ensures d.active.value == activeCount as real && d.active.changeValue.None?
  {
    DashboardMetricsDto(
      DashboardMetricDto("Total Bets", current.totalBets as real, "count",
                         Some(PercentageChange(previous.totalBets as real, current.totalBets as real)),
                         "percentage", "from last period"),
      DashboardMetricDto("Win Rate", current.winRate, "percentage",
                         Some(PercentageChange(previous.winRate, current.winRate)),
                         "percentage_points", "from last period"),
      DashboardMetricDto("Total Profit", current.totalProfit, "currency",
                         Some(PercentageChange(previous.totalProfit, current.totalProfit)),
                         "percentage", "from last period"),
      DashboardMetricDto("Active Bets", activeCount as real, "count", None, "text", EndingTodayText(endingToday)))
  }

  /** The warnings `Handle` adds, in order. */
  method Warnings(currentCount: nat, previousCount: nat) returns (warnings: seq<string>)
    ensures FewBetsWarning in warnings <==> currentCount < ReliableBetCount
    ensures NoPreviousDataWarning in warnings <==> previousCount == 0 && currentCount > 0
    ensures forall w :: w in warnings ==> w == FewBetsWarning || w == NoPreviousDataWarning
    ensures |warnings| <= 2
    ensures warnings == [] <==> currentCount >= ReliableBetCount && (previousCount > 0 || currentCount == 0)
    ensures |warnings| == 2 ==> warnings == [FewBetsWarning, NoPreviousDataWarning]
  {
    warnings := [];
    if currentCount < ReliableBetCount {
      warnings := warnings + [FewBetsWarning];
    }
    if previousCount == 0 && currentCount > 0 {
      warnings := warnings + [NoPreviousDataWarning];
    }
  }

  /** `Handle`. `userExists` is the result of the user lookup, `now` the clock, and
      `isEndingToday` tells whether an open bet's event is on today's date. */
  method Handle(userExists: bool, bets: seq<BetRecord>, userId: Guid, periodInDays: Option<int>, now: Ticks,
                isEndingToday: BetRecord -> bool)
    returns (r: ApiResponse<DashboardMetricsDto>)
    ensures !userExists ==> r == ApiResponses.Failure([UserNotFoundError], None)
    ensures Consistent(r)
    ensures userExists ==>
      var start := PeriodStart(now, PeriodInDays(periodInDays));
      var current := CurrentPeriodBets(bets, userId, start);
      var previous := PreviousPeriodBets(bets, userId, PeriodStart(start, PeriodInDays(periodInDays)), start);
      var active := ActiveBets(bets, userId);
      && r.isSuccess && r.errors == []
      && r.value == Some(MetricsDto(CalculatePeriodMetrics(current), CalculatePeriodMetrics(previous),
                                    |active|, CountWhere(active, isEndingToday)))
      && (FewBetsWarning in r.warnings <==> |current| < ReliableBetCount)
      && (NoPreviousDataWarning in r.warnings <==> |previous| == 0 && |current| > 0)
      && (forall w :: w in r.warnings ==> w == FewBetsWarning || w == NoPreviousDataWarning)
      && |r.warnings| <= 2
      && (|r.warnings| == 2 ==> r.warnings == [FewBetsWarning, NoPreviousDataWarning])
  {
    if !userExists {
      return ApiResponses.Failure([UserNotFoundError], None);
    }
    var days := PeriodInDays(periodInDays);
    var currentPeriodStart := PeriodStart(now, days);
    var previousPeriodStart := PeriodStart(currentPeriodStart, days);
    var currentBets := CurrentPeriodBets(bets, userId, currentPeriodStart);
    var previousBets := PreviousPeriodBets(bets, userId, previousPeriodStart, currentPeriodStart);
    var activeBets := ActiveBets(bets, userId);
    var currentMetrics := CalculatePeriodMetrics(currentBets);
    var previousMetrics := CalculatePeriodMetrics(previousBets);
    var dto := MetricsDto(currentMetrics, previousMetrics, |activeBets|, CountWhere(activeBets, isEndingToday));
    var warnings := Warnings(currentMetrics.totalBets, previousMetrics.totalBets);
    r := ApiResponses.Success(dto, if |warnings| > 0 then Some(warnings) else None);
  }
}
