/** Merging a stored match detail with an incoming one. */
module DetailMerge {
  import opened Options
  import opened MergeLists
  import opened KeyedMerge
  import StableSort
  import SM = ServingMatches

  datatype Status = Completed | Ongoing(name: string)

  datatype Score = Score(home: Option<int>, away: Option<int>)

  datatype Breakdown = Breakdown(halftime: Score, fulltime: Score, extratime: Score, penalty: Score)

  /** `facts` stands for the required fields: competition, kickoff, team ids and names. */
  datatype Match = Match(id: string, facts: string, status: Status, score: Score, homeCountry: Option<string>, awayCountry: Option<string>,
                         venue: Option<string>, round: Option<string>, stage: Option<string>, neutralVenue: Option<bool>,
                         sourceRefs: seq<SM.SourceRef>, updatedAt: int)

  datatype Detail = Detail(match_: Match, status: Status, elapsedMinute: Option<int>, referee: Maybe<string>,
                           scoreBreakdown: Option<Breakdown>, events: seq<Event>, teamStats: Option<seq<TeamStats>>,
                           lineups: Option<seq<Lineup>>, warnings: Option<seq<string>>, notes: Option<seq<string>>, updatedAt: int)

  function MergeScore(p: Score, f: Score): Score { Score(Prefer(p.home, f.home), Prefer(p.away, f.away)) }

  function MergeMatches(p: Match, f: Match): Match {
    Match(p.id, p.facts, p.status, MergeScore(p.score, f.score), Prefer(p.homeCountry, f.homeCountry),
          Prefer(p.awayCountry, f.awayCountry), Prefer(p.venue, f.venue), Prefer(p.round, f.round), Prefer(p.stage, f.stage),
          Prefer(p.neutralVenue, f.neutralVenue), SM.Dedupe(f.sourceRefs + p.sourceRefs),
          if p.updatedAt >= f.updatedAt then p.updatedAt else f.updatedAt)
  }

  function MergeBreakdown(p: Option<Breakdown>, f: Option<Breakdown>): Option<Breakdown> {
    if p.None? then f
    else if f.None? then p
    else Some(Breakdown(MergeScore(p.value.halftime, f.value.halftime), MergeScore(p.value.fulltime, f.value.fulltime),
                        MergeScore(p.value.extratime, f.value.extratime), MergeScore(p.value.penalty, f.value.penalty)))
  }

  /** A completed match that an update reports as not completed keeps its own data first. */
  predicate Regresses(existing: Detail, incoming: Detail) { existing.status.Completed? && !incoming.status.Completed? }

  function MergeDetails(existing: Detail, incoming: Detail): Detail {
    if incoming.updatedAt >= existing.updatedAt then
      Detail(if Regresses(existing, incoming) then MergeMatches(existing.match_, incoming.match_) else MergeMatches(incoming.match_, existing.match_),
             if Regresses(existing, incoming) then Completed else incoming.status,
             Prefer(incoming.elapsedMinute, existing.elapsedMinute),
             PreferKnown(incoming.referee, existing.referee),
             MergeBreakdown(incoming.scoreBreakdown, existing.scoreBreakdown),
             MergeEvents(incoming.events, existing.events, incoming.warnings),
             MergeTeamStats(incoming.teamStats, existing.teamStats),
             MergeLineups(incoming.lineups, existing.lineups, incoming.warnings),
             MergeWarnings(existing.warnings, incoming.warnings),
             MergeStrings(existing.notes, incoming.notes),
             incoming.updatedAt)
    else
      Detail(MergeMatches(existing.match_, incoming.match_),
             existing.status,
             Prefer(existing.elapsedMinute, incoming.elapsedMinute),
             PreferKnown(existing.referee, incoming.referee),
             MergeBreakdown(existing.scoreBreakdown, incoming.scoreBreakdown),
             MergeEvents(existing.events, incoming.events, existing.warnings),
             MergeTeamStats(existing.teamStats, incoming.teamStats),
             MergeLineups(existing.lineups, incoming.lineups, existing.warnings),
             MergeWarnings(incoming.warnings, existing.warnings),
             MergeStrings(existing.notes, incoming.notes),
             existing.updatedAt)
  }

  // ---------------------------------------------------------------- what is taken from which side

  predicate Chosen<T(==)>(r: Option<T>, first: Option<T>, second: Option<T>) { if first.Some? then r == first else r == second }

  /** A match with the facts, the status and the known fields of `lead`, the gaps filled from `other`, the
      newest reference of every key of either, and the later update time. */
  ghost predicate LedBy(r: Match, lead: Match, other: Match) {
    && r.id == lead.id && r.facts == lead.facts && r.status == lead.status
    && Chosen(r.score.home, lead.score.home, other.score.home) && Chosen(r.score.away, lead.score.away, other.score.away)
    && Chosen(r.homeCountry, lead.homeCountry, other.homeCountry) && Chosen(r.awayCountry, lead.awayCountry, other.awayCountry)
    && Chosen(r.venue, lead.venue, other.venue) && Chosen(r.round, lead.round, other.round) && Chosen(r.stage, lead.stage, other.stage)
    && Chosen(r.neutralVenue, lead.neutralVenue, other.neutralVenue)
    && lead.updatedAt <= r.updatedAt && other.updatedAt <= r.updatedAt && (r.updatedAt == lead.updatedAt || r.updatedAt == other.updatedAt)
    && forall key :: NewestOf(r.sourceRefs, other.sourceRefs + lead.sourceRefs, key)
  }

  ghost predicate NewestOf(r: seq<SM.SourceRef>, refs: seq<SM.SourceRef>, key: SM.RefKey) {
    var own := StableSort.Filter(refs, SM.HasKeyOf(key));
    StableSort.Filter(r, SM.HasKeyOf(key)) == if own == [] then [] else [SM.Newest(own)]
  }

  lemma MatchesLed(lead: Match, other: Match)
    ensures LedBy(MergeMatches(lead, other), lead, other)
  {
    hide SM.Dedupe, StableSort.Filter;
    forall key ensures NewestOf(MergeMatches(lead, other).sourceRefs, other.sourceRefs + lead.sourceRefs, key) {
      SM.DedupeMeaning(other.sourceRefs + lead.sourceRefs, key);
    }
  }

  /** The lists of the newer side lead: its events where it covers them all, its lineups, its warnings with
      the other side's except those about coverage, and all notes. */
  ghost predicate ListsLedBy(d: Detail, newer: Detail, older: Detail) {
    && (forall key :: EventsFrom(d.events, newer, older, key))
    && LineupsFrom(d.lineups, newer.lineups, older.lineups, newer.warnings)
    && (forall w :: w in Members(d.warnings) <==>
          HasInk(w) && (w in OrNone(newer.warnings) || (w in OrNone(older.warnings) && (newer.warnings.None? || !IsCoverage(w)))))
    && (forall n :: n in Members(d.notes) <==> HasInk(n) && (n in OrNone(newer.notes) || n in OrNone(older.notes)))
  }

  ghost predicate EventsFrom(r: seq<Event>, newer: Detail, older: Detail, key: string) {
    var gaps := (newer.warnings.Some? && ("events_partial" in newer.warnings.value || "events_unavailable" in newer.warnings.value))
                || (newer.warnings.None? && newer.events == []);
    var p, f := StableSort.Filter(newer.events, HasEventKey(key)), StableSort.Filter(older.events, HasEventKey(key));
    if !gaps then r == newer.events
    else StableSort.Filter(r, HasEventKey(key)) == if p != [] then [p[|p| - 1]] else if f != [] then [f[|f| - 1]] else []
  }

  lemma ListsLed(newer: Detail, older: Detail, d: Detail)
    requires d.events == MergeEvents(newer.events, older.events, newer.warnings)
    requires d.lineups == MergeLineups(newer.lineups, older.lineups, newer.warnings)
    requires d.warnings == MergeWarnings(older.warnings, newer.warnings)
    requires d.notes == MergeStrings(newer.notes, older.notes) || d.notes == MergeStrings(older.notes, newer.notes)
    ensures ListsLedBy(d, newer, older)
  {
    hide StableSort.Filter, MergeEvents, MergeLineups, MergeWarnings, MergeStrings, HasInk, IsCoverage, LineupsFrom, Members;
    forall key ensures EventsFrom(d.events, newer, older, key) { EventsMeaning(newer.events, older.events, newer.warnings, key); }
    LineupsMeaning(newer.lineups, older.lineups, newer.warnings);
    MergeWarningsMembers(older.warnings, newer.warnings);
    MergeStringsMembers(newer.notes, older.notes);
    MergeStringsMembers(older.notes, newer.notes);
  }

  /** The newer version leads, an update counting as newer at equal times: its status is taken, except that a
      completed match is not reopened and then keeps its own match data first. */
  lemma MergeTakes(existing: Detail, incoming: Detail)
    ensures var d := MergeDetails(existing, incoming);
      var takes := existing.updatedAt <= incoming.updatedAt;
      var newer, older := if takes then incoming else existing, if takes then existing else incoming;
      var reopens := takes && existing.status.Completed? && !incoming.status.Completed?;
      && d.updatedAt == newer.updatedAt
      && d.status == (if reopens then existing.status else newer.status)
      && LedBy(d.match_, if reopens then existing.match_ else newer.match_, if reopens then incoming.match_ else older.match_)
      && Chosen(d.elapsedMinute, newer.elapsedMinute, older.elapsedMinute)
      && (if newer.referee.Known? then d.referee == newer.referee
          else if older.referee.Known? then d.referee == older.referee
          else !d.referee.Known? && (d.referee.Absent? <==> newer.referee.Absent? && older.referee.Absent?))
      && ListsLedBy(d, newer, older)
  {
    hide LedBy, ListsLedBy, MergeMatches, MergeEvents, MergeLineups, MergeWarnings, MergeStrings, MergeTeamStats, MergeBreakdown;
    MatchesLed(existing.match_, incoming.match_);
    MatchesLed(incoming.match_, existing.match_);
    var d := MergeDetails(existing, incoming);
    if existing.updatedAt <= incoming.updatedAt { ListsLed(incoming, existing, d); } else { ListsLed(existing, incoming, d); }
  }

  // ---------------------------------------------------------------- what is known

  datatype Side = Home | Away
  datatype Period = Halftime | Fulltime | Extratime | Penalty

  /** A number that a detail may know. */
  datatype Fact = MatchScore(side: Side) | PeriodScore(period: Period, side: Side) | TeamStat(team: string, stat: StatName)

  function SideOf(s: Score, side: Side): Option<int> { if side.Home? then s.home else s.away }

  function PeriodOf(b: Breakdown, p: Period): Score {
    match p case Halftime => b.halftime case Fulltime => b.fulltime case Extratime => b.extratime case Penalty => b.penalty
  }

  function ValueOf(d: Detail, f: Fact): Option<int> {
    match f
    case MatchScore(side) => SideOf(d.match_.score, side)
    case PeriodScore(period, side) => PeriodValue(d.scoreBreakdown, period, side)
    case TeamStat(team, stat) => TeamValue(d.teamStats, team, stat)
  }

  function PeriodValue(b: Option<Breakdown>, period: Period, side: Side): Option<int> {
    if b.None? then None else SideOf(PeriodOf(b.value, period), side)
  }

  function TeamValue(ts: Option<seq<TeamStats>>, team: string, stat: StatName): Option<int> {
    if ts.None? then None
    else
      var t := Find(ts.value, team);
      if t.None? then None else Stat(t.value, stat)
  }

  ghost predicate TeamsUnique(d: Detail) { d.teamStats.Some? ==> UniqueTeams(d.teamStats.value) }

  /** The side whose known values win: the newer one, except that the score of a completed match
      wins over that of an update that calls it not completed. */
  predicate IncomingWins(existing: Detail, incoming: Detail, f: Fact) {
    incoming.updatedAt >= existing.updatedAt && !(f.MatchScore? && Regresses(existing, incoming))
  }

  lemma PeriodKnows(p: Option<Breakdown>, f: Option<Breakdown>, period: Period, side: Side)
    ensures PeriodValue(MergeBreakdown(p, f), period, side) == Prefer(PeriodValue(p, period, side), PeriodValue(f, period, side))
  {
  }

  lemma StatKnows(p: Option<seq<TeamStats>>, f: Option<seq<TeamStats>>, team: string, stat: StatName)
    requires (p.Some? ==> UniqueTeams(p.value)) && (f.Some? ==> UniqueTeams(f.value))
    ensures MergeTeamStats(p, f).Some? ==> UniqueTeams(MergeTeamStats(p, f).value)
    ensures TeamValue(MergeTeamStats(p, f), team, stat) == Prefer(TeamValue(p, team, stat), TeamValue(f, team, stat))
  {
    hide UniqueTeams, MergeTeams, Find;
    if p.Some? && f.Some? { TeamStatsMeaning(p.value, f.value, team); }
  }

  /** A merged number is known exactly when either side knows it, and the winning side's value is
      taken when it has one. */
  lemma MergeKnows(existing: Detail, incoming: Detail, f: Fact)
    requires TeamsUnique(existing) && TeamsUnique(incoming)
    ensures TeamsUnique(MergeDetails(existing, incoming))
    ensures ValueOf(MergeDetails(existing, incoming), f)
      == if IncomingWins(existing, incoming, f) then Prefer(ValueOf(incoming, f), ValueOf(existing, f))
         else Prefer(ValueOf(existing, f), ValueOf(incoming, f))
  {
    hide MergeEvents, MergeLineups, MergeWarnings, MergeStrings, SM.Dedupe, UniqueTeams, MergeTeamStats, TeamValue, PeriodValue,
         MergeBreakdown, PreferKnown;
    var newer, older := if incoming.updatedAt >= existing.updatedAt then incoming else existing,
                        if incoming.updatedAt >= existing.updatedAt then existing else incoming;
    StatKnows(newer.teamStats, older.teamStats, if f.TeamStat? then f.team else "", if f.TeamStat? then f.stat else Fouls);
    if f.PeriodScore? { PeriodKnows(newer.scoreBreakdown, older.scoreBreakdown, f.period, f.side); }
  }

  /** A completed status never regresses, and the detail's and the match's status stay in step. */
  lemma CompletedStays(existing: Detail, incoming: Detail)
    ensures existing.status.Completed? ==> MergeDetails(existing, incoming).status.Completed?
    ensures existing.status == existing.match_.status && incoming.status == incoming.match_.status ==>
      MergeDetails(existing, incoming).status == MergeDetails(existing, incoming).match_.status
  {
  }

  // ---------------------------------------------------------------- sequences of updates

  function Applied(d: Detail, updates: seq<Detail>): Detail {
    if updates == [] then d else MergeDetails(Applied(d, updates[..|updates| - 1]), updates[|updates| - 1])
  }

  function Newest(d: Detail, updates: seq<Detail>): int {
    if updates == [] then d.updatedAt
    else
      var before, t := Newest(d, updates[..|updates| - 1]), updates[|updates| - 1].updatedAt;
      if t >= before then t else before
  }

  /** Over any sequence of updates, in any order of their times: the result carries the largest
      `updatedAt`, a completed status stays, and a number is known at the end exactly when some
      version knew it. */
  lemma {:induction false} UpdatesKeep(d: Detail, updates: seq<Detail>, f: Fact)
    requires TeamsUnique(d) && forall u :: u in updates ==> TeamsUnique(u)
    ensures var r := Applied(d, updates);
      && r.updatedAt == Newest(d, updates)
      && (d.status.Completed? ==> r.status.Completed?)
      && TeamsUnique(r)
      && (ValueOf(r, f).Some? <==> ValueOf(d, f).Some? || exists u :: u in updates && ValueOf(u, f).Some?)
  {
    if updates != [] {
      hide ValueOf, TeamsUnique;
      var init, last := updates[..|updates| - 1], updates[|updates| - 1];
      assert updates == init + [last];
      assert last in updates;
      UpdatesKeep(d, init, f);
      MergeKnows(Applied(d, init), last, f);
      CompletedStays(Applied(d, init), last);
      assert MergeDetails(Applied(d, init), last).updatedAt
          == if last.updatedAt >= Applied(d, init).updatedAt then last.updatedAt else Applied(d, init).updatedAt;
      hide MergeDetails;
    }
  }

  /** A detail that became completed stays completed under whatever follows. */
  lemma CompletedForGood(d: Detail, updates: seq<Detail>, later: seq<Detail>)
    requires Applied(d, updates).status.Completed?
    ensures Applied(d, updates + later).status.Completed?
  {
    if later == [] {
      assert updates + later == updates;
    } else {
      assert (updates + later)[..|updates + later| - 1] == updates + later[..|later| - 1];
      CompletedForGood(d, updates, later[..|later| - 1]);
      CompletedStays(Applied(d, updates + later[..|later| - 1]), later[|later| - 1]);
    }
  }

  // ---------------------------------------------------------------- applying an update twice

  ghost predicate SameButWarningOrder(a: Detail, b: Detail) {
    a.(warnings := None) == b.(warnings := None) && Members(a.warnings) == Members(b.warnings)
  }

  lemma MatchesAgain(p: Match, f: Match)
    ensures MergeMatches(p, MergeMatches(p, f)) == MergeMatches(p, f)
    ensures MergeMatches(MergeMatches(f, p), p) == MergeMatches(f, p)
  {
    hide SM.Dedupe;
    SM.DedupeAgain(f.sourceRefs, p.sourceRefs);
    SM.DedupeAbsorbs(f.sourceRefs + p.sourceRefs, p.sourceRefs);
    SM.DedupeAbsorbs(p.sourceRefs, p.sourceRefs + f.sourceRefs);
    assert p.sourceRefs + (p.sourceRefs + f.sourceRefs) == p.sourceRefs + p.sourceRefs + f.sourceRefs;
  }

  /** Applying the same newer-or-equal update again changes nothing but the order of the warnings. */
  lemma ReapplyChangesNothing(existing: Detail, incoming: Detail)
    requires TeamsUnique(existing) && TeamsUnique(incoming)
    requires incoming.lineups.Some? ==> UniqueLineups(incoming.lineups.value)
    requires incoming.updatedAt >= existing.updatedAt
    ensures var once := MergeDetails(existing, incoming);
      SameButWarningOrder(MergeDetails(once, incoming), once)
  {
    hide MergeMatches, MergeEvents, MergeTeamStats, MergeLineups, MergeWarnings, MergeStrings, Members, UniqueTeams, UniqueLineups;
    MatchesAgain(incoming.match_, existing.match_);
    EventsAgain(incoming.events, existing.events, incoming.warnings);
    TeamStatsAgain(incoming.teamStats, existing.teamStats);
    LineupsAgain(incoming.lineups, existing.lineups, incoming.warnings);
    WarningsAgain(existing.warnings, incoming.warnings);
    NotesAgain(existing.notes, incoming.notes);
  }
}
