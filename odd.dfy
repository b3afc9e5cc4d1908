/** The `Odd` entity: the three 1X2 prices one bookmaker quotes for an event. */
module OddEntity {
  import opened Wrappers
  import opened Enums

  /** The argument an odd validation rejects. */
  datatype OddField = Team1OddField | DrawOddField | Team2OddField

  /** `ValidateOdd`: an odd must be greater than zero. */
  function ValidateOdd(odd: real, field: OddField): (r: Result<real, OddField>)
    ensures r.Success? <==> odd > 0.0
    ensures r.Success? ==> r.value == odd
    ensures r.Failure? ==> r.error == field
  {
    if odd <= 0.0 then Failure(field) else Success(odd)
  }

  /** The three validations in the order the source runs them: the first odd that is not
      positive is the one reported. */
  function CheckOdds(team1Odd: real, drawOdd: real, team2Odd: real): (r: Outcome<OddField>)
    ensures r.Pass? <==> team1Odd > 0.0 && drawOdd > 0.0 && team2Odd > 0.0
    ensures r == Fail(Team1OddField) <==> team1Odd <= 0.0
    ensures r == Fail(DrawOddField) <==> team1Odd > 0.0 && drawOdd <= 0.0
    ensures r == Fail(Team2OddField) <==> team1Odd > 0.0 && drawOdd > 0.0 && team2Odd <= 0.0
  {
    if ValidateOdd(team1Odd, Team1OddField).Failure? then Fail(Team1OddField)
    else if ValidateOdd(drawOdd, DrawOddField).Failure? then Fail(DrawOddField)
    else if ValidateOdd(team2Odd, Team2OddField).Failure? then Fail(Team2OddField)
    else Pass
  }

  class Odd {
    var id: Guid
    var eventId: Guid
    var marketType: MarketType
    var team1Odd: real
    var drawOdd: real
    var team2Odd: real
    var source: OddsSource
    var createdAt: Ticks

    /** Every stored odd is positive. */
    predicate Valid()
      reads this
    {
      team1Odd > 0.0 && drawOdd > 0.0 && team2Odd > 0.0
    }

    /** The domain constructor once its validations have passed; `id` and `now` stand for
        `Guid.NewGuid()` and `DateTime.UtcNow`. */
    constructor (id: Guid, eventId: Guid, marketType: MarketType, team1Odd: real, drawOdd: real,
                 team2Odd: real, source: OddsSource, now: Ticks)
      requires CheckOdds(team1Odd, drawOdd, team2Odd).Pass?
      ensures Valid()
      ensures this.id == id && this.eventId == eventId && this.marketType == marketType
      ensures this.team1Odd == team1Odd && this.drawOdd == drawOdd && this.team2Odd == team2Odd
      ensures this.source == source && this.createdAt == now
    {
      this.id := id;
      this.eventId := eventId;
      this.marketType := marketType;
      this.team1Odd := team1Odd;
      this.drawOdd := drawOdd;
      this.team2Odd := team2Odd;
      this.source := source;
      this.createdAt := now;
    }

    /** `UpdateOdds`. Each odd is validated and stored in turn, so a rejected draw or
        team-2 odd leaves the odds before it already replaced; only validated values are
        ever stored, so the entity stays valid. */
    method UpdateOdds(team1Odd: real, drawOdd: real, team2Odd: real) returns (r: Outcome<OddField>)
      modifies this
      ensures r == CheckOdds(team1Odd, drawOdd, team2Odd)
      ensures this.team1Odd == if team1Odd > 0.0 then team1Odd else old(this.team1Odd)
      ensures this.drawOdd == if team1Odd > 0.0 && drawOdd > 0.0 then drawOdd else old(this.drawOdd)
      ensures this.team2Odd == if r.Pass? then team2Odd else old(this.team2Odd)
      ensures id == old(id) && eventId == old(eventId) && marketType == old(marketType)
      ensures source == old(source) && createdAt == old(createdAt)
      ensures old(Valid()) ==> Valid()
    {
      var v1 := ValidateOdd(team1Odd, Team1OddField);
      if v1.Failure? {
        return Fail(v1.error);
      }
      this.team1Odd := v1.value;
      var v2 := ValidateOdd(drawOdd, DrawOddField);
      if v2.Failure? {
        return Fail(v2.error);
      }
      this.drawOdd := v2.value;
      var v3 := ValidateOdd(team2Odd, Team2OddField);
      if v3.Failure? {
        return Fail(v3.error);
      }
      this.team2Odd := v3.value;
      r := Pass;
    }
  }

  /** The public constructor: fails with the first invalid odd, or builds a fresh odd
      holding exactly the arguments. */
  method CreateOdd(id: Guid, eventId: Guid, marketType: MarketType, team1Odd: real, drawOdd: real,
                   team2Odd: real, source: OddsSource, now: Ticks)
    returns (r: Result<Odd, OddField>)
    ensures r.Failure? <==> CheckOdds(team1Odd, drawOdd, team2Odd).Fail?
    ensures r.Failure? ==> r.error == CheckOdds(team1Odd, drawOdd, team2Odd).error
    ensures r.Success? ==>
      var o := r.value;
      && fresh(o) && o.Valid()
      && o.id == id && o.eventId == eventId && o.marketType == marketType
      && o.team1Odd == team1Odd && o.drawOdd == drawOdd && o.team2Odd == team2Odd
      && o.source == source && o.createdAt == now
  {
    var check := CheckOdds(team1Odd, drawOdd, team2Odd);
    if check.Fail? {
      return Failure(check.error);
    }
    var o := new Odd(id, eventId, marketType, team1Odd, drawOdd, team2Odd, source, now);
    r := Success(o);
  }
}
