/** The `Event` entity: a football match as scraped from one bookmaker, with the
    lifecycle flags used to archive events that no bet refers to. */
module EventEntity {
  import opened Wrappers
  import opened Text
  import opened Enums

  /** The argument a name validation rejects. */
  datatype EventField = LeagueField | Team1Field | Team2Field

  /** `ValidateAndTrimString`: a blank value is rejected, any other value is trimmed. */
  function ValidateAndTrim(value: string, field: EventField): (r: Result<string, EventField>)
    ensures r.Success? <==> !IsBlank(value)
    ensures r.Success? ==> r.value == Trim(value) && IsTrimmedText(r.value)
    ensures r.Failure? ==> r.error == field
  {
    if IsBlank(value) then Failure(field) else Success(Trim(value))
  }

  /** The constructor's validations in source order: league, team 1, team 2. */
  function CheckNames(league: string, team1: string, team2: string): (r: Outcome<EventField>)
    ensures r.Pass? <==> !IsBlank(league) && !IsBlank(team1) && !IsBlank(team2)
    ensures r == Fail(LeagueField) <==> IsBlank(league)
    ensures r == Fail(Team1Field) <==> !IsBlank(league) && IsBlank(team1)
    ensures r == Fail(Team2Field) <==> !IsBlank(league) && !IsBlank(team1) && IsBlank(team2)
  {
    if ValidateAndTrim(league, LeagueField).Failure? then Fail(LeagueField)
    else if ValidateAndTrim(team1, Team1Field).Failure? then Fail(Team1Field)
    else if ValidateAndTrim(team2, Team2Field).Failure? then Fail(Team2Field)
    else Pass
  }

  class Event {
    var id: Guid
    var league: string
    var eventDateTime: Ticks
    var team1: string
    var team2: string
    var status: EventStatus
    var externalLink: Option<string>
    var scrapedAt: Ticks
    var source: OddsSource
    var isActive: bool
    var hasBets: bool
    var archivedAt: Option<Ticks>

    /** The names are stored trimmed and non-empty; an archived event is inactive. */
    predicate Valid()
      reads this
    {
      IsTrimmedText(league) && IsTrimmedText(team1) && IsTrimmedText(team2)
      && (archivedAt.Some? ==> !isActive)
    }

    /** The domain constructor once the names have been validated: the names are stored
        trimmed, and a new event is scheduled, active and without bets. */
    constructor (id: Guid, league: string, eventDateTime: Ticks, team1: string, team2: string,
                 source: OddsSource, externalLink: Option<string>, now: Ticks)
      requires !IsBlank(league) && !IsBlank(team1) && !IsBlank(team2)
      ensures Valid()
      ensures this.id == id && this.league == Trim(league) && this.eventDateTime == eventDateTime
      ensures this.team1 == Trim(team1) && this.team2 == Trim(team2)
      ensures status == Scheduled && this.externalLink == externalLink && scrapedAt == now
      ensures this.source == source && isActive && !hasBets && archivedAt.None?
    {
      var l, t1, t2 := Trim(league), Trim(team1), Trim(team2);
      assert IsTrimmedText(l) && IsTrimmedText(t1) && IsTrimmedText(t2);
      this.id := id;
      this.league := l;
      this.eventDateTime := eventDateTime;
      this.team1 := t1;
      this.team2 := t2;
      status := Scheduled;
      this.externalLink := externalLink;
      scrapedAt := now;
      this.source := source;
      isActive := true;
      hasBets := false;
      archivedAt := None;
    }

    /** `UpdateStatus`: only the status changes. */
    method UpdateStatus(status: EventStatus)
      modifies this
      ensures this.status == status
      ensures id == old(id) && league == old(league) && eventDateTime == old(eventDateTime)
      ensures team1 == old(team1) && team2 == old(team2) && externalLink == old(externalLink)
      ensures scrapedAt == old(scrapedAt) && source == old(source)
      ensures isActive == old(isActive) && hasBets == old(hasBets) && archivedAt == old(archivedAt)
      ensures old(Valid()) ==> Valid()
    {
      this.status := status;
    }

    /** `UpdateScrapedAt`, with the clock passed in. */
    method UpdateScrapedAt(now: Ticks)
      modifies this
      ensures scrapedAt == now
      ensures id == old(id) && league == old(league) && eventDateTime == old(eventDateTime)
      ensures team1 == old(team1) && team2 == old(team2) && externalLink == old(externalLink)
      ensures status == old(status) && source == old(source)
      ensures isActive == old(isActive) && hasBets == old(hasBets) && archivedAt == old(archivedAt)
      ensures old(Valid()) ==> Valid()
    {
      scrapedAt := now;
    }

    /** `MarkAsHavingBets`: sets the flag and nothing else, so marking twice is the same
        as marking once. */
    method MarkAsHavingBets()
      modifies this
      ensures hasBets
      ensures id == old(id) && league == old(league) && eventDateTime == old(eventDateTime)
      ensures team1 == old(team1) && team2 == old(team2) && externalLink == old(externalLink)
      ensures status == old(status) && scrapedAt == old(scrapedAt) && source == old(source)
      ensures isActive == old(isActive) && archivedAt == old(archivedAt)
      ensures old(Valid()) ==> Valid()
    {
      hasBets := true;
    }

    /** `Archive`, with the clock passed in: a soft delete. */
    method Archive(now: Ticks)
      modifies this
      ensures !isActive && archivedAt == Some(now)
      ensures id == old(id) && league == old(league) && eventDateTime == old(eventDateTime)
      ensures team1 == old(team1) && team2 == old(team2) && externalLink == old(externalLink)
      ensures status == old(status) && scrapedAt == old(scrapedAt) && source == old(source)
      ensures hasBets == old(hasBets)
      ensures old(Valid()) ==> Valid()
    {
      isActive := false;
      archivedAt := Some(now);
    }

    /** `Reactivate`: undoes `Archive`. */
    method Reactivate()
      modifies this
      ensures isActive && archivedAt.None?
      ensures id == old(id) && league == old(league) && eventDateTime == old(eventDateTime)
      ensures team1 == old(team1) && team2 == old(team2) && externalLink == old(externalLink)
      ensures status == old(status) && scrapedAt == old(scrapedAt) && source == old(source)
      ensures hasBets == old(hasBets)
      ensures old(Valid()) ==> Valid()
    {
      isActive := true;
      archivedAt := None;
    }
  }

  /** The public constructor: fails with the first blank name, or builds a fresh, valid,
      scheduled event. */
  method CreateEvent(id: Guid, league: string, eventDateTime: Ticks, team1: string, team2: string,
                     source: OddsSource, externalLink: Option<string>, now: Ticks)
    returns (r: Result<Event, EventField>)
    ensures r.Failure? <==> CheckNames(league, team1, team2).Fail?
    ensures r.Failure? ==> r.error == CheckNames(league, team1, team2).error
    ensures r.Success? ==>
      var e := r.value;
      && fresh(e) && e.Valid()
      && e.id == id && e.league == Trim(league) && e.eventDateTime == eventDateTime
      && e.team1 == Trim(team1) && e.team2 == Trim(team2)
      && e.status == Scheduled && e.externalLink == externalLink && e.scrapedAt == now
      && e.source == source && e.isActive && !e.hasBets && e.archivedAt.None?
  {
    var check := CheckNames(league, team1, team2);
    if check.Fail? {
      return Failure(check.error);
    }
    var e := new Event(id, league, eventDateTime, team1, team2, source, externalLink, now);
    r := Success(e);
  }
}
