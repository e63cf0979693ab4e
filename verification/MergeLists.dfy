/** The lists inside a match detail and how two versions of each are merged: team statistics and
    lineups by team, events by a key, warnings and notes as insertion-ordered sets. */
module MergeLists {
  import opened Options
  import opened StableSort
  import opened KeyedMerge
  import JsMap

  /** A property that may be missing, `null`, or known. */
  datatype Maybe<+T> = Absent | Null | Known(value: T)

  function Prefer<T>(p: Option<T>, f: Option<T>): Option<T> { if p.Some? then p else f }

  function PreferKnown<T>(p: Maybe<T>, f: Maybe<T>): Maybe<T> {
    if p.Known? then p else if f.Known? then f else if p.Null? then p else f
  }

  // ---------------------------------------------------------------- team statistics

  datatype TeamStats = TeamStats(teamId: string, teamName: Option<string>, cornerKicks: Option<int>, yellowCards: Option<int>,
                                 redCards: Option<int>, totalShots: Option<int>, shotsOnGoal: Option<int>, possession: Option<int>,
                                 fouls: Maybe<int>, offsides: Maybe<int>)

  function MergeTeam(p: TeamStats, f: TeamStats): TeamStats {
    TeamStats(p.teamId, Prefer(p.teamName, f.teamName), Prefer(p.cornerKicks, f.cornerKicks), Prefer(p.yellowCards, f.yellowCards),
              Prefer(p.redCards, f.redCards), Prefer(p.totalShots, f.totalShots), Prefer(p.shotsOnGoal, f.shotsOnGoal),
              Prefer(p.possession, f.possession), PreferKnown(p.fouls, f.fouls), PreferKnown(p.offsides, f.offsides))
  }

  datatype StatName = CornerKicks | YellowCards | RedCards | TotalShots | ShotsOnGoal | Possession | Fouls | Offsides

  function KnownOnly(m: Maybe<int>): Option<int> { if m.Known? then Some(m.value) else None }

  function Stat(t: TeamStats, n: StatName): Option<int> {
    match n
    case CornerKicks => t.cornerKicks
    case YellowCards => t.yellowCards
    case RedCards => t.redCards
    case TotalShots => t.totalShots
    case ShotsOnGoal => t.shotsOnGoal
    case Possession => t.possession
    case Fouls => KnownOnly(t.fouls)
    case Offsides => KnownOnly(t.offsides)
  }

  type ByTeam = JsMap.JsMap<string, TeamStats>

  function TeamMap(ts: seq<TeamStats>): ByTeam {
    if ts == [] then [] else JsMap.Set(TeamMap(ts[..|ts| - 1]), ts[|ts| - 1].teamId, ts[|ts| - 1])
  }

  /** Each primary entry joined with the fallback entry of its team, which is then used up; the
      fallback entries left over follow. */
  function MergeTeams(primary: seq<TeamStats>, fallback: ByTeam): seq<TeamStats> {
    if primary == [] then JsMap.Values(fallback)
    else
      match JsMap.Lookup(fallback, primary[0].teamId)
      case None => [primary[0]] + MergeTeams(primary[1..], fallback)
      case Some(f) => [MergeTeam(primary[0], f)] + MergeTeams(primary[1..], JsMap.Remove(fallback, primary[0].teamId))
  }

  function MergeTeamStats(primary: Option<seq<TeamStats>>, fallback: Option<seq<TeamStats>>): Option<seq<TeamStats>> {
    if primary.None? then fallback
    else if fallback.None? then primary
    else Some(MergeTeams(primary.value, TeamMap(fallback.value)))
  }

  method BuildTeamMap(fallback: seq<TeamStats>) returns (byTeam: ByTeam)
    ensures byTeam == TeamMap(fallback)
  {
    byTeam := [];
    for i := 0 to |fallback|
      invariant byTeam == TeamMap(fallback[..i])
    {
      assert fallback[..i + 1][..i] == fallback[..i];
      byTeam := JsMap.Set(byTeam, fallback[i].teamId, fallback[i]);
    }
    assert fallback[..|fallback|] == fallback;
  }

  lemma MergeTeamsFrom(primary: seq<TeamStats>, byTeam: ByTeam, i: nat)
    requires i < |primary|
    ensures MergeTeams(primary[i..], byTeam) ==
      match JsMap.Lookup(byTeam, primary[i].teamId)
      case None => [primary[i]] + MergeTeams(primary[i + 1..], byTeam)
      case Some(f) => [MergeTeam(primary[i], f)] + MergeTeams(primary[i + 1..], JsMap.Remove(byTeam, primary[i].teamId))
  {
    hide MergeTeam, JsMap.Lookup, JsMap.Remove;
    assert primary[i..][1..] == primary[i + 1..];
  }

  method MergeTeamStatsLoop(primary: seq<TeamStats>, fallback: seq<TeamStats>) returns (result: seq<TeamStats>)
    ensures Some(result) == MergeTeamStats(Some(primary), Some(fallback))
  {
    hide TeamMap, MergeTeam, MergeTeams, JsMap.Lookup, JsMap.Remove, JsMap.Values;
    var byTeam := BuildTeamMap(fallback);
    result := [];
    assert primary[0..] == primary;
    for i := 0 to |primary|
      invariant result + MergeTeams(primary[i..], byTeam) == MergeTeams(primary, TeamMap(fallback))
    {
      var p := primary[i];
      MergeTeamsFrom(primary, byTeam, i);
      var f := JsMap.Lookup(byTeam, p.teamId);
      if f.None? {
        result := result + [p];
      } else {
        result := result + [MergeTeam(p, f.value)];
        byTeam := JsMap.Remove(byTeam, p.teamId);
      }
    }
    NoTeamsLeft(primary[|primary|..], byTeam);
    result := result + JsMap.Values(byTeam);
  }

  lemma NoTeamsLeft(primary: seq<TeamStats>, byTeam: ByTeam)
    requires primary == []
    ensures MergeTeams(primary, byTeam) == JsMap.Values(byTeam)
  {
  }

  ghost predicate UniqueTeams(ts: seq<TeamStats>) {
    forall i, j :: 0 <= i < j < |ts| ==> ts[i].teamId != ts[j].teamId
  }

  ghost predicate KeyedTeams(m: ByTeam) {
    JsMap.UniqueKeys(m) && forall i :: 0 <= i < |m| ==> m[i].key == m[i].value.teamId
  }

  function Find(ts: seq<TeamStats>, team: string): Option<TeamStats> {
    if ts == [] then None else if ts[0].teamId == team then Some(ts[0]) else Find(ts[1..], team)
  }

  lemma {:induction false} FindIn(ts: seq<TeamStats>, team: string)
    ensures Find(ts, team).None? <==> forall t :: t in ts ==> t.teamId != team
    ensures Find(ts, team).Some? ==> Find(ts, team).value in ts && Find(ts, team).value.teamId == team
  {
    if ts != [] {
      FindIn(ts[1..], team);
      assert ts == [ts[0]] + ts[1..];
    }
  }

  lemma FindUnique(ts: seq<TeamStats>, t: TeamStats)
    requires UniqueTeams(ts) && t in ts
    ensures Find(ts, t.teamId) == Some(t)
  {
    FindIn(ts, t.teamId);
    var i :| 0 <= i < |ts| && ts[i] == t;
    var f := Find(ts, t.teamId).value;
    var j :| 0 <= j < |ts| && ts[j] == f;
  }

  lemma {:induction false} TeamMapKeyed(ts: seq<TeamStats>)
    ensures KeyedTeams(TeamMap(ts))
    ensures UniqueTeams(ts) ==> JsMap.Values(TeamMap(ts)) == ts
  {
    if ts != [] {
      var init, last := ts[..|ts| - 1], ts[|ts| - 1];
      TeamMapKeyed(init);
      var m := TeamMap(init);
      JsMap.SetLookup(m, last.teamId, last);
      if JsMap.Has(m, last.teamId) {
        var i := JsMap.LookupIndex(m, last.teamId);
        JsMap.SetAt(m, last.teamId, last, i);
        assert UniqueTeams(init) ==> JsMap.Values(m)[i] == init[i] && init[i].teamId == last.teamId;
      } else {
        JsMap.SetFresh(m, last.teamId, last);
      }
    }
  }

  /** The statistics of a team in both lists, in one of them, or in neither. */
  function Joined(p: Option<TeamStats>, f: Option<TeamStats>): Option<TeamStats> {
    if p.Some? && f.Some? then Some(MergeTeam(p.value, f.value)) else Prefer(p, f)
  }

  lemma {:induction false} MergeTeamsFind(primary: seq<TeamStats>, fallback: ByTeam, team: string)
    requires UniqueTeams(primary) && KeyedTeams(fallback)
    ensures Find(MergeTeams(primary, fallback), team) == Joined(Find(primary, team), JsMap.Lookup(fallback, team))
    decreases |primary|
  {
    hide JsMap.UniqueKeys, JsMap.Lookup;
    if primary == [] {
      FindInMap(fallback, team);
    } else {
      var p, rest := primary[0], primary[1..];
      JsMap.RemoveLookup(fallback, p.teamId);
      RemoveKeyed(fallback, p.teamId);
      FindIn(rest, p.teamId);
      assert forall t :: t in rest ==> t.teamId != p.teamId;
      match JsMap.Lookup(fallback, p.teamId)
      case None => MergeTeamsFind(rest, fallback, team);
      case Some(_) => MergeTeamsFind(rest, JsMap.Remove(fallback, p.teamId), team);
    }
  }

  lemma RemoveKeyed(m: ByTeam, team: string)
    requires KeyedTeams(m)
    ensures KeyedTeams(JsMap.Remove(m, team))
  {
    JsMap.RemoveLookup(m, team);
    var r := JsMap.Remove(m, team);
    forall i | 0 <= i < |r| ensures r[i].key == r[i].value.teamId { JsMap.RemoveIn(m, team, r[i]); }
  }

  lemma FindInMap(m: ByTeam, team: string)
    requires KeyedTeams(m)
    ensures Find(JsMap.Values(m), team) == JsMap.Lookup(m, team)
  {
    var vs := JsMap.Values(m);
    FindIn(vs, team);
    if JsMap.Has(m, team) {
      var i := JsMap.LookupIndex(m, team);
      assert vs[i] in vs;
      forall a, b | 0 <= a < b < |vs| ensures vs[a].teamId != vs[b].teamId { assert m[a].key != m[b].key; }
      FindUnique(vs, vs[i]);
    } else {
      forall t | t in vs ensures t.teamId != team {
        var i :| 0 <= i < |m| && vs[i] == t;
        assert m[i].key != team;
      }
    }
  }

  lemma {:induction false} MergeTeamsUnique(primary: seq<TeamStats>, fallback: ByTeam)
    requires UniqueTeams(primary) && KeyedTeams(fallback)
    ensures UniqueTeams(MergeTeams(primary, fallback))
    decreases |primary|
  {
    if primary == [] {
      var vs := JsMap.Values(fallback);
      forall a, b | 0 <= a < b < |vs| ensures vs[a].teamId != vs[b].teamId { assert fallback[a].key != fallback[b].key; }
    } else {
      var p, rest := primary[0], primary[1..];
      var left := if JsMap.Lookup(fallback, p.teamId).None? then fallback else JsMap.Remove(fallback, p.teamId);
      RemoveKeyed(fallback, p.teamId);
      JsMap.RemoveLookup(fallback, p.teamId);
      MergeTeamsUnique(rest, left);
      MergeTeamsFind(rest, left, p.teamId);
      FindIn(rest, p.teamId);
      FindIn(MergeTeams(rest, left), p.teamId);
      assert forall t :: t in rest ==> t.teamId != p.teamId;
    }
  }

  /** The merged statistics hold exactly the teams of both lists, each once, and each statistic is
      known when either list knows it, the primary's value winning. */
  lemma TeamStatsMeaning(primary: seq<TeamStats>, fallback: seq<TeamStats>, team: string)
    requires UniqueTeams(primary) && UniqueTeams(fallback)
    ensures var merged := MergeTeams(primary, TeamMap(fallback));
      UniqueTeams(merged) && Find(merged, team) == Joined(Find(primary, team), Find(fallback, team))
  {
    TeamMapKeyed(fallback);
    MergeTeamsUnique(primary, TeamMap(fallback));
    MergeTeamsFind(primary, TeamMap(fallback), team);
    FindInMap(TeamMap(fallback), team);
  }

  /** Entries at the front of the result are settled for their primaries. */
  lemma {:induction false} MergeTeamsFront(primary: seq<TeamStats>, fallback: ByTeam, i: nat)
    requires KeyedTeams(fallback) && i < |primary|
    ensures var r := MergeTeams(primary, fallback);
      |primary| <= |r| && r[i].teamId == primary[i].teamId && MergeTeam(primary[i], r[i]) == r[i]
    decreases |primary|
  {
    var p := primary[0];
    var left := if JsMap.Lookup(fallback, p.teamId).None? then fallback else JsMap.Remove(fallback, p.teamId);
    RemoveKeyed(fallback, p.teamId);
    if |primary| > 1 { MergeTeamsFront(primary[1..], left, if i > 0 then i - 1 else 0); }
  }

  lemma {:induction false} MergeTeamsSettled(primary: seq<TeamStats>, m: ByTeam)
    requires KeyedTeams(m) && |primary| <= |m|
    requires forall i :: 0 <= i < |primary| ==> m[i].key == primary[i].teamId && MergeTeam(primary[i], m[i].value) == m[i].value
    ensures MergeTeams(primary, m) == JsMap.Values(m)
    decreases |primary|
  {
    if primary != [] {
      JsMap.LookupAt(m, 0);
      assert !JsMap.Has(m[1..], m[0].key) by {
        forall i | 0 <= i < |m[1..]| ensures m[1..][i].key != m[0].key { assert m[i + 1].key != m[0].key; }
      }
      JsMap.RemoveAbsent(m[1..], m[0].key);
      assert JsMap.Remove(m, primary[0].teamId) == m[1..];
      MergeTeamsSettled(primary[1..], m[1..]);
      assert JsMap.Values(m) == [m[0].value] + JsMap.Values(m[1..]);
    }
  }

  /** Merging the same update into the result again changes nothing. */
  lemma TeamStatsAgain(primary: Option<seq<TeamStats>>, fallback: Option<seq<TeamStats>>)
    requires (primary.Some? ==> UniqueTeams(primary.value)) && (fallback.Some? ==> UniqueTeams(fallback.value))
    ensures MergeTeamStats(primary, MergeTeamStats(primary, fallback)) == MergeTeamStats(primary, fallback)
  {
    if primary.Some? {
      var p := primary.value;
      TeamMapKeyed(if fallback.Some? then fallback.value else []);
      var r := MergeTeamStats(primary, fallback).value;
      if fallback.Some? {
        MergeTeamsUnique(p, TeamMap(fallback.value));
        forall i | 0 <= i < |p| ensures |p| <= |r| && r[i].teamId == p[i].teamId && MergeTeam(p[i], r[i]) == r[i] {
          MergeTeamsFront(p, TeamMap(fallback.value), i);
        }
      }
      assert |p| <= |r| by { if p != [] && fallback.Some? { MergeTeamsFront(p, TeamMap(fallback.value), 0); } }
      TeamMapKeyed(r);
      MergeTeamsSettled(p, TeamMap(r));
    }
  }

  // ---------------------------------------------------------------- lineups

  datatype Lineup = Lineup(teamId: string, teamName: Option<string>, formation: Option<string>,
                           starters: seq<string>, substitutes: seq<string>)

  function OrFilled(p: seq<string>, f: seq<string>): seq<string> { if |p| > 0 then p else f }

  function MergeLineup(p: Lineup, f: Lineup): Lineup {
    Lineup(p.teamId, Prefer(p.teamName, f.teamName), Prefer(p.formation, f.formation),
           OrFilled(p.starters, f.starters), OrFilled(p.substitutes, f.substitutes))
  }

  /** `new Map(...)` keeps the last lineup of a team. */
  function LastLineup(ls: seq<Lineup>, team: string): Option<Lineup> {
    if ls == [] then None
    else if ls[|ls| - 1].teamId == team then Some(ls[|ls| - 1])
    else LastLineup(ls[..|ls| - 1], team)
  }

  function Warned(ws: Option<seq<string>>, a: string, b: string): bool {
    ws.Some? && (a in ws.value || b in ws.value)
  }

  function FillLineup(p: Lineup, fallback: seq<Lineup>): Lineup {
    var f := LastLineup(fallback, p.teamId);
    if f.None? then p else MergeLineup(p, f.value)
  }

  function MergeLineups(primary: Option<seq<Lineup>>, fallback: Option<seq<Lineup>>, warnings: Option<seq<string>>): Option<seq<Lineup>> {
    if primary.None? then fallback
    else if fallback.None? then primary
    else if !Warned(warnings, "lineups_partial", "lineups_unavailable") then primary
    else
      var p := primary.value;
      Some(seq(|p|, i requires 0 <= i < |p| => FillLineup(p[i], fallback.value)))
  }

  /** A lineup of the primary list, its gaps filled from the other list's last lineup of the team. */
  predicate FilledFrom(r: Lineup, p: Lineup, fallback: seq<Lineup>) {
    match LastLineup(fallback, p.teamId)
    case None => r == p
    case Some(f) =>
      && r.teamId == p.teamId && r.teamName == (if p.teamName.Some? then p.teamName else f.teamName)
      && r.formation == (if p.formation.Some? then p.formation else f.formation)
      && r.starters == (if p.starters != [] then p.starters else f.starters)
      && r.substitutes == (if p.substitutes != [] then p.substitutes else f.substitutes)
  }

  /** The primary lineups, filled up only where the primary side says its lineups are incomplete. */
  ghost predicate LineupsFrom(r: Option<seq<Lineup>>, primary: Option<seq<Lineup>>, fallback: Option<seq<Lineup>>, warnings: Option<seq<string>>) {
    if primary.None? then r == fallback
    else if fallback.Some? && warnings.Some? && ("lineups_partial" in warnings.value || "lineups_unavailable" in warnings.value) then
      r.Some? && |r.value| == |primary.value| && forall i :: 0 <= i < |r.value| ==> FilledFrom(r.value[i], primary.value[i], fallback.value)
    else r == primary
  }

  lemma LineupsMeaning(primary: Option<seq<Lineup>>, fallback: Option<seq<Lineup>>, warnings: Option<seq<string>>)
    ensures LineupsFrom(MergeLineups(primary, fallback, warnings), primary, fallback, warnings)
  {
    hide LastLineup;
  }

  ghost predicate UniqueLineups(ls: seq<Lineup>) {
    forall i, j :: 0 <= i < j < |ls| ==> ls[i].teamId != ls[j].teamId
  }

  lemma {:induction false} LastLineupAt(ls: seq<Lineup>, i: nat)
    requires UniqueLineups(ls) && i < |ls|
    ensures LastLineup(ls, ls[i].teamId) == Some(ls[i])
  {
    if i < |ls| - 1 { LastLineupAt(ls[..|ls| - 1], i); }
  }

  lemma {:induction false} LastLineupTeam(ls: seq<Lineup>, team: string)
    ensures LastLineup(ls, team).Some? ==> LastLineup(ls, team).value.teamId == team
  {
    if ls != [] { LastLineupTeam(ls[..|ls| - 1], team); }
  }

  lemma LineupsAgain(primary: Option<seq<Lineup>>, fallback: Option<seq<Lineup>>, warnings: Option<seq<string>>)
    requires primary.Some? ==> UniqueLineups(primary.value)
    ensures MergeLineups(primary, MergeLineups(primary, fallback, warnings), warnings) == MergeLineups(primary, fallback, warnings)
  {
    if primary.Some? && fallback.Some? && Warned(warnings, "lineups_partial", "lineups_unavailable") {
      var p, r := primary.value, MergeLineups(primary, fallback, warnings).value;
      forall i | 0 <= i < |p| ensures FillLineup(p[i], r) == r[i] {
        LastLineupTeam(fallback.value, p[i].teamId);
        assert r[i] == FillLineup(p[i], fallback.value) && r[i].teamId == p[i].teamId;
        LastLineupAt(r, i);
      }
      assert MergeLineups(primary, Some(r), warnings).value == r;
    } else if primary.Some? && fallback.None? {
      var p := primary.value;
      forall i | 0 <= i < |p| ensures FillLineup(p[i], p) == p[i] { LastLineupAt(p, i); }
      assert Warned(warnings, "lineups_partial", "lineups_unavailable") ==> MergeLineups(primary, primary, warnings).value == p;
    }
  }

  // ---------------------------------------------------------------- events

  /** `key` stands for minute, extra minute, team, type, player and assist. */
  datatype Event = Event(key: string, content: string)

  function EventKey(e: Event): string { e.key }
  function TheEvent(e: Event): Event { e }
  function LaterEvent(x: Event, y: Event): Event { y }
  function EventRule(): Rule<Event, string> { Rule(EventKey, TheEvent, LaterEvent) }

  function MergeEvents(primary: seq<Event>, fallback: seq<Event>, warnings: Option<seq<string>>): seq<Event> {
    if !Warned(warnings, "events_partial", "events_unavailable") && (warnings.Some? || |primary| > 0) then primary
    else Merged(fallback + primary, EventRule())
  }

  /** The last event with a key, or `d`. */
  function LastEvent(es: seq<Event>, key: string, d: Event): Event {
    if es == [] then d
    else if es[|es| - 1].key == key then es[|es| - 1]
    else LastEvent(es[..|es| - 1], key, d)
  }

  lemma EventsLawful()
    ensures Lawful(EventRule())
  {
  }

  lemma {:induction false} PutEvents(m: seq<Event>, es: seq<Event>)
    requires Settled(m, EventRule()) && forall e :: e in es ==> HasKey(m, e.key, EventRule())
    ensures var r := AddAll(m, es, EventRule());
      |r| == |m| && forall j :: 0 <= j < |m| ==> r[j].key == m[j].key && r[j] == LastEvent(es, m[j].key, m[j])
  {
    if es != [] {
      var init, last := es[..|es| - 1], es[|es| - 1];
      PutEvents(m, init);
      var before := AddAll(m, init, EventRule());
      var j :| 0 <= j < |m| && EventRule().key(m[j]) == last.key;
      forall k | 0 <= k < |m| && k != j ensures before[k].key != last.key { assert EventRule().key(m[k]) != EventRule().key(m[j]); }
      AddAt(before, last, EventRule(), j);
    }
  }

  lemma {:induction false} EventsAreLast(m: seq<Event>, es: seq<Event>)
    requires Settled(m, EventRule())
    ensures forall e :: e in AddAll(m, es, EventRule()) ==> LastEvent(es, e.key, e) == e
  {
    if es != [] {
      var init, last := es[..|es| - 1], es[|es| - 1];
      EventsAreLast(m, init);
      EventsLawful();
      AddAllSettled(m, init, EventRule());
      hide Lawful;
      AddedEvent(AddAll(m, init, EventRule()), last);
    }
  }

  lemma AddedEvent(m: seq<Event>, x: Event)
    requires Settled(m, EventRule())
    ensures forall e :: e in Add(m, x, EventRule()) ==> e == x || (e in m && e.key != x.key)
  {
    if HasKey(m, x.key, EventRule()) {
      var j :| 0 <= j < |m| && EventRule().key(m[j]) == x.key;
      AddAt(m, x, EventRule(), j);
      forall k | 0 <= k < |m| && k != j ensures m[k].key != x.key { assert EventRule().key(m[k]) != EventRule().key(m[j]); }
    } else {
      AddFresh(m, x, EventRule());
      forall k | 0 <= k < |m| ensures m[k].key != x.key { assert EventRule().key(m[k]) != x.key; }
    }
  }

  function HasEventKey(key: string): Event -> bool { KeyIn(IsKey(key), EventRule()) }

  lemma {:induction false} FoldLast(es: seq<Event>)
    requires es != []
    ensures Fold(es, EventRule()) == es[|es| - 1]
  {
    if |es| > 1 { FoldLast(es[..|es| - 1]); }
  }

  /** Complete coverage replaces the events; otherwise each key of either list keeps its last event,
      the primary's where it has one. */
  lemma EventsMeaning(primary: seq<Event>, fallback: seq<Event>, warnings: Option<seq<string>>, key: string)
    ensures var merged := MergeEvents(primary, fallback, warnings);
      var partial := Warned(warnings, "events_partial", "events_unavailable") || (warnings.None? && primary == []);
      var p, f := Filter(primary, HasEventKey(key)), Filter(fallback, HasEventKey(key));
      if !partial then merged == primary
      else Filter(merged, HasEventKey(key)) ==
             if p != [] then [p[|p| - 1]] else if f != [] then [f[|f| - 1]] else []
  {
    hide Filter, Merged;
    FilterConcat(fallback, primary, HasEventKey(key));
    LastOfKey(fallback + primary, key);
  }

  /** Merging keeps the last event of each key. */
  lemma LastOfKey(all: seq<Event>, key: string)
    ensures var own := Filter(all, HasEventKey(key));
      Filter(Merged(all, EventRule()), HasEventKey(key)) == if own != [] then [own[|own| - 1]] else []
  {
    EventsLawful();
    MergedFilter(all, EventRule(), IsKey(key));
    var own := Filter(all, HasEventKey(key));
    assert forall e :: e in own ==> EventRule().key(e) == key;
    hide Lawful, Filter;
    if own != [] {
      OneKey(own, EventRule(), key);
      FoldLast(own);
    }
  }

  lemma EventsTwice(a: seq<Event>, b: seq<Event>)
    ensures Merged(Merged(a + b, EventRule()) + b, EventRule()) == Merged(a + b, EventRule())
  {
    var r := EventRule();
    EventsLawful();
    hide Lawful;
    AddAllConcat([], a, b, r);
    AddAllSettled([], a, r);
    var before, m := AddAll([], a, r), Merged(a + b, r);
    AddAllSettled(before, b, r);
    EventsAreLast(before, b);
    forall e | e in b ensures HasKey(m, e.key, r) {
      var i :| 0 <= i < |b| && b[i] == e;
      assert r.key(b[i]) == e.key && HasKey(b, e.key, r);
    }
    PutEvents(m, b);
    forall j | 0 <= j < |m| ensures AddAll(m, b, r)[j] == m[j] { assert m[j] in m; }
    MergedFixed(m, r);
    AddAllConcat([], m, b, r);
  }

  lemma EventsAgain(primary: seq<Event>, fallback: seq<Event>, warnings: Option<seq<string>>)
    ensures MergeEvents(primary, MergeEvents(primary, fallback, warnings), warnings) == MergeEvents(primary, fallback, warnings)
  {
    EventsTwice(fallback, primary);
  }

  method MergeEventsLoop(primary: seq<Event>, fallback: seq<Event>, warnings: Option<seq<string>>) returns (result: seq<Event>)
    ensures result == MergeEvents(primary, fallback, warnings)
  {
    if !Warned(warnings, "events_partial", "events_unavailable") && (warnings.Some? || |primary| > 0) { return primary; }
    var all := fallback + primary;
    var byKey: JsMap.JsMap<string, Event> := [];
    for i := 0 to |all|
      invariant JsMap.UniqueKeys(byKey) && forall k :: 0 <= k < |byKey| ==> byKey[k].key == byKey[k].value.key
      invariant JsMap.Values(byKey) == AddAll([], all[..i], EventRule())
    {
      assert all[..i + 1][..i] == all[..i];
      PutIsAdd(byKey, all[i]);
      byKey := JsMap.Set(byKey, all[i].key, all[i]);
    }
    assert all[..|all|] == all;
    return JsMap.Values(byKey);
  }

  lemma PutIsAdd(m: JsMap.JsMap<string, Event>, e: Event)
    requires JsMap.UniqueKeys(m) && forall k :: 0 <= k < |m| ==> m[k].key == m[k].value.key
    ensures var s := JsMap.Set(m, e.key, e);
      && JsMap.UniqueKeys(s) && (forall k :: 0 <= k < |s| ==> s[k].key == s[k].value.key)
      && JsMap.Values(s) == Add(JsMap.Values(m), e, EventRule())
  {
    JsMap.SetLookup(m, e.key, e);
    var vs := JsMap.Values(m);
    if JsMap.Has(m, e.key) {
      var i := JsMap.LookupIndex(m, e.key);
      JsMap.SetAt(m, e.key, e, i);
      forall j | 0 <= j < i ensures EventRule().key(vs[j]) != e.key { assert m[j].key != m[i].key; }
      AddAt(vs, e, EventRule(), i);
    } else {
      JsMap.SetFresh(m, e.key, e);
      forall j | 0 <= j < |vs| ensures EventRule().key(vs[j]) != e.key { assert m[j].key != e.key; }
      AddFresh(vs, e, EventRule());
    }
  }

  // ---------------------------------------------------------------- warnings and notes

  function Text(s: string): string { s }
  function Earlier(x: string, y: string): string { x }
  function SetRule(): Rule<string, string> { Rule(Text, Text, Earlier) }

  /** The white space that `trim` removes. */
  predicate IsBlank(c: char) {
    c in {' ', '\t', '\n', '\r', '\U{000B}', '\U{000C}', '\U{00A0}', '\U{1680}', '\U{2028}', '\U{2029}', '\U{202F}', '\U{205F}',
          '\U{3000}', '\U{FEFF}'}
    || '\U{2000}' <= c <= '\U{200A}'
  }

  predicate HasInk(s: string) { exists i :: 0 <= i < |s| && !IsBlank(s[i]) }

  function OrNone(s: Option<seq<string>>): seq<string> { if s.Some? then s.value else [] }

  /** The distinct non-blank strings of both lists, in order of first appearance. */
  function Union(a: seq<string>, b: seq<string>): seq<string> { Merged(Filter(a + b, HasInk), SetRule()) }

  function MergeStrings(a: Option<seq<string>>, b: Option<seq<string>>): Option<seq<string>> {
    if a.None? && b.None? then None else Some(Union(OrNone(a), OrNone(b)))
  }

  predicate IsCoverage(w: string) { "events_" <= w || "statistics_" <= w || "lineups_" <= w }
  predicate NotCoverage(w: string) { !IsCoverage(w) }

  function WithoutCoverage(ws: Option<seq<string>>): Option<seq<string>> {
    match ws case None => None case Some(s) => Some(Filter(s, NotCoverage))
  }

  function MergeWarnings(fallback: Option<seq<string>>, primary: Option<seq<string>>): Option<seq<string>> {
    if primary.None? then MergeStrings(fallback, None) else MergeStrings(WithoutCoverage(fallback), primary)
  }

  function Members(ws: Option<seq<string>>): set<string> { set w | w in OrNone(ws) }

  lemma SetLawful()
    ensures Lawful(SetRule())
  {
  }

  lemma {:induction false} UniqueMembers(s: seq<string>)
    ensures forall w :: w in Merged(s, SetRule()) <==> w in s
  {
    if s != [] {
      UniqueMembers(s[..|s| - 1]);
      assert s == s[..|s| - 1] + [s[|s| - 1]];
      AddedString(Merged(s[..|s| - 1], SetRule()), s[|s| - 1]);
    }
  }

  lemma {:induction false} AddedString(m: seq<string>, x: string)
    ensures forall w :: w in Add(m, x, SetRule()) <==> w in m || w == x
  {
    if m != [] {
      AddedString(m[1..], x);
      assert m == [m[0]] + m[1..];
    }
  }

  lemma UnionMembers(a: seq<string>, b: seq<string>)
    ensures forall w :: w in Union(a, b) <==> (w in a || w in b) && HasInk(w)
  {
    UniqueMembers(Filter(a + b, HasInk));
  }

  lemma MergeWarningsMembers(fallback: Option<seq<string>>, primary: Option<seq<string>>)
    ensures forall w :: w in Members(MergeWarnings(fallback, primary)) <==>
      HasInk(w) && (w in OrNone(primary) || (w in OrNone(fallback) && (primary.None? || NotCoverage(w))))
  {
    UnionMembers(OrNone(fallback), []);
    UnionMembers(OrNone(WithoutCoverage(fallback)), OrNone(primary));
  }

  lemma MergeStringsMembers(a: Option<seq<string>>, b: Option<seq<string>>)
    ensures MergeStrings(a, b).None? <==> a.None? && b.None?
    ensures forall w :: w in Members(MergeStrings(a, b)) <==> HasInk(w) && (w in OrNone(a) || w in OrNone(b))
  {
    UnionMembers(OrNone(a), OrNone(b));
  }

  lemma WarningsAgain(fallback: Option<seq<string>>, primary: Option<seq<string>>)
    ensures Members(MergeWarnings(MergeWarnings(fallback, primary), primary)) == Members(MergeWarnings(fallback, primary))
  {
    var r := MergeWarnings(fallback, primary);
    MergeWarningsMembers(fallback, primary);
    MergeWarningsMembers(r, primary);
    assert forall w :: w in OrNone(r) <==> w in Members(r);
    hide MergeWarnings, Members, HasInk, IsCoverage;
    assert forall w :: w in Members(MergeWarnings(r, primary)) <==> w in Members(r);
  }

  lemma UnionAgain(a: seq<string>, b: seq<string>)
    ensures Union(Union(a, b), b) == Union(a, b)
  {
    var r := SetRule();
    var fa, fb := Filter(a, HasInk), Filter(b, HasInk);
    UnionMembers(a, b);
    FilterConcat(a, b, HasInk);
    FilterConcat(Union(a, b), b, HasInk);
    FilterAll(Union(a, b), HasInk);
    var u := Merged(fa + fb, r);
    SetLawful();
    AddAllSettled([], fa + fb, r);
    UniqueMembers(fa + fb);
    hide Lawful, HasInk, Filter;
    forall x | x in fb ensures Absorbs(u, x, r) {
      assert x in u;
      var j :| 0 <= j < |u| && u[j] == x;
      assert r.key(u[j]) == r.key(x) && r.join(u[j], x) == u[j];
    }
    MergedFixed(u, r);
    AddAllConcat([], u, fb, r);
    AbsorbAll(u, fb, r);
  }

  lemma NotesAgain(a: Option<seq<string>>, b: Option<seq<string>>)
    ensures MergeStrings(MergeStrings(a, b), b) == MergeStrings(a, b)
  {
    UnionAgain(OrNone(a), OrNone(b));
  }
}
