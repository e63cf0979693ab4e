/** The versioned serving store: matches are partitioned by day and by competition, indexed by id,
    written into a new version directory and published by replacing the manifest. */
module ServingStore {
  import opened Options
  import opened StableSort
  import opened KeyedMerge
  import opened ServingMatches
  import opened Grouping
  import JsMap

  const DAY_MS := 86_400_000

  datatype CompetitionKey = CompetitionKey(competitionId: Name, season: Name)
  datatype CompetitionPath = CompetitionPath(competition: string, season: string)

  datatype IndexEntry = IndexEntry(date: int, competition: CompetitionKey, partition: int)

  datatype VersionDir = VersionDir(byDate: map<int, seq<LocalMatch>>, byCompetition: map<CompetitionPath, seq<LocalMatch>>,
                                   index: map<Name, IndexEntry>)

  datatype Meta = Meta(snapshotId: string, generatedAt: int, importedAt: int)

  datatype Manifest = Manifest(version: Name, meta: Meta, sources: seq<SourceRef>, matchCount: nat,
                               byDate: seq<int>, byCompetition: seq<CompetitionPath>)

  datatype Disk = Disk(manifest: Option<Manifest>, versions: map<Name, VersionDir>)

  // ---------------------------------------------------------------- the files of a version

  function DayOf(m: LocalMatch): int { m.kickoff / DAY_MS }
  function CompetitionOf(m: LocalMatch): CompetitionKey { CompetitionKey(m.competitionId, m.season) }

  type DayEntry = JsMap.Entry<int, seq<LocalMatch>>
  type CompetitionEntry = JsMap.Entry<CompetitionKey, seq<LocalMatch>>

  function DayLeq(a: DayEntry, b: DayEntry): bool { a.key <= b.key }

  function CompetitionLeq(a: CompetitionEntry, b: CompetitionEntry): bool {
    a.key.competitionId.rank < b.key.competitionId.rank
    || (a.key.competitionId == b.key.competitionId && a.key.season.rank <= b.key.season.rank)
  }

  /** `segment` stands for `safePartitionSegment`: a name usable in a path, else a hash of it. */
  function PathOf(k: CompetitionKey, segment: Name -> string): CompetitionPath {
    CompetitionPath(segment(k.competitionId), segment(k.season))
  }

  function Days(ms: seq<LocalMatch>): seq<DayEntry> { Sort(GroupAll(ms, DayOf), DayLeq) }
  function Competitions(ms: seq<LocalMatch>): seq<CompetitionEntry> { Sort(GroupAll(ms, CompetitionOf), CompetitionLeq) }

  function WriteDays(es: seq<DayEntry>): map<int, seq<LocalMatch>> {
    if es == [] then map[]
    else WriteDays(es[..|es| - 1])[es[|es| - 1].key := Sort(es[|es| - 1].value, MatchLeq)]
  }

  function WriteCompetitions(es: seq<CompetitionEntry>, segment: Name -> string): map<CompetitionPath, seq<LocalMatch>> {
    if es == [] then map[]
    else WriteCompetitions(es[..|es| - 1], segment)[PathOf(es[|es| - 1].key, segment) := Sort(es[|es| - 1].value, MatchLeq)]
  }

  function EntryFor(m: LocalMatch): IndexEntry { IndexEntry(DayOf(m), CompetitionOf(m), DayOf(m)) }

  function WriteIndex(ms: seq<LocalMatch>): map<Name, IndexEntry> {
    if ms == [] then map[] else WriteIndex(ms[..|ms| - 1])[ms[|ms| - 1].id := EntryFor(ms[|ms| - 1])]
  }

  function VersionFor(ms: seq<LocalMatch>, segment: Name -> string): VersionDir {
    VersionDir(WriteDays(Days(ms)), WriteCompetitions(Competitions(ms), segment), WriteIndex(ms))
  }

  function DayPaths(es: seq<DayEntry>): seq<int> { seq(|es|, i requires 0 <= i < |es| => es[i].key) }

  function CompetitionPaths(es: seq<CompetitionEntry>, segment: Name -> string): seq<CompetitionPath> {
    seq(|es|, i requires 0 <= i < |es| => PathOf(es[i].key, segment))
  }

  function ManifestFor(version: Name, meta: Meta, sources: seq<SourceRef>, ms: seq<LocalMatch>, segment: Name -> string): Manifest {
    Manifest(version, meta, Dedupe(sources), |ms|, DayPaths(Days(ms)), CompetitionPaths(Competitions(ms), segment))
  }

  // ---------------------------------------------------------------- reading

  datatype ReadResult = Missing | Broken | Snapshot(meta: Meta, sources: seq<SourceRef>, matches: seq<LocalMatch>)

  function Second(x: LocalMatch, y: LocalMatch): LocalMatch { y }
  function Itself(m: LocalMatch): LocalMatch { m }

  /** `byId.set(match.id, match)` in a loop. */
  function SetRule(): Rule<LocalMatch, Name> { Rule(IdOf, Itself, Second) }

  /** The concatenated partitions, or nothing when one is missing or holds an invalid match. */
  function ReadDays(byDate: map<int, seq<LocalMatch>>, days: seq<int>): Option<seq<LocalMatch>> {
    if days == [] then Some([])
    else
      var before, day := ReadDays(byDate, days[..|days| - 1]), days[|days| - 1];
      if before.None? || day !in byDate || (exists m :: m in byDate[day] && !m.valid) then None
      else Some(before.value + byDate[day])
  }

  function Read(d: Disk): ReadResult {
    if d.manifest.None? then Missing
    else
      var m := d.manifest.value;
      if m.version !in d.versions then (if m.byDate == [] then Snapshot(m.meta, m.sources, []) else Broken)
      else
        var ms := ReadDays(d.versions[m.version].byDate, m.byDate);
        if ms.None? then Broken else Snapshot(m.meta, m.sources, Sort(Merged(ms.value, SetRule()), MatchLeq))
  }

  // ---------------------------------------------------------------- building

  /** How one file operation goes: it works, it throws, or the process ends there. */
  datatype Fault = Works | Throws | Ends

  /** No file operation fails. */
  ghost predicate NoFault(fault: nat -> Fault) { forall k :: fault(k).Works? }

  datatype BuildResult = Built(matchCount: nat, partitionCount: nat) | Failed | Ended

  class ServingRoot {
    var manifest: Option<Manifest>
    var versions: map<Name, VersionDir>
    var steps: nat

    function Now(): Disk reads this { Disk(manifest, versions) }

    constructor ()
      ensures Now() == Disk(None, map[])
    {
      manifest, versions, steps := None, map[], 0;
    }

    /** The next file operation's fate. */
    method Next(fault: nat -> Fault) returns (f: Fault)
      modifies this`steps
      ensures NoFault(fault) ==> f.Works?
    {
      f := fault(steps);
      steps := steps + 1;
    }

    /** Whatever fails and wherever the process ends: the manifest and every earlier version stay as
        they were unless the build succeeds, and then the new version is complete. */
    method Build(safe: bool, version: Name, meta: Meta, sources: seq<SourceRef>, input: seq<LocalMatch>, segment: Name -> string,
                 fault: nat -> Fault) returns (r: BuildResult)
      modifies this
      ensures r.Built? ==> safe && version !in old(versions) && (forall m :: m in input ==> m.valid)
      ensures r.Built? ==> var ms := Normalize(input);
        && manifest == Some(ManifestFor(version, meta, sources, ms, segment))
        && versions == old(versions)[version := VersionFor(ms, segment)]
        && r == BuildResult.Built(|ms|, |Days(ms)| + |Competitions(ms)|)
      ensures r.Built? ==> manifest.Some? && manifest.value.matchCount == r.matchCount
      ensures safe && version !in old(versions) && (forall m :: m in input ==> m.valid) && NoFault(fault) ==> r.Built?
      ensures !r.Built? ==> manifest == old(manifest)
                            && forall v :: v in old(versions) ==> v in versions && versions[v] == old(versions)[v]
      // The snapshot that was published before reads as it did.
      ensures !r.Built? && (manifest.Some? ==> manifest.value.version in old(versions)) ==> Read(Now()) == old(Read(Now()))
    {
      hide Normalize, Days, Competitions, ReadDays, Merged, Sort;
      if !safe { return Failed; }
      var normalized := NormalizeAndValidateMatches(input);
      if normalized.Invalid? { return Failed; }
      var ms := normalized.matches;
      var f := Next(fault);
      if f.Ends? { return Ended; }
      // Creating the version directory fails when it exists; nothing is removed then.
      if f.Throws? || version in versions { return Failed; }
      versions := versions[version := VersionDir(map[], map[], map[])];
      var written := Write(version, meta, sources, ms, segment, fault);
      if written.Throws? {
        f := Next(fault);
        if f.Works? { versions := map v | v in versions && v != version :: versions[v]; }
        return Failed;
      }
      return if written.Ends? then Ended else Built(|ms|, |Days(ms)| + |Competitions(ms)|);
    }

    /** Fills the new version directory file by file and replaces the manifest last. */
    method Write(version: Name, meta: Meta, sources: seq<SourceRef>, ms: seq<LocalMatch>, segment: Name -> string, fault: nat -> Fault)
        returns (f: Fault)
      requires version in versions && versions[version] == VersionDir(map[], map[], map[])
      modifies this
      ensures NoFault(fault) ==> f.Works?
      ensures f.Works? ==> manifest == Some(ManifestFor(version, meta, sources, ms, segment))
                           && versions == old(versions)[version := VersionFor(ms, segment)]
      ensures !f.Works? ==> manifest == old(manifest) && version in versions && versions == old(versions)[version := versions[version]]
    {
      hide Sort, GroupAll, WriteDays, WriteCompetitions, WriteIndex, DayPaths, CompetitionPaths, Dedupe;
      ghost var before := versions;
      var groups := GroupMatches(ms, DayOf);
      var days := Sort(groups, DayLeq);
      var competitionGroups := GroupMatches(ms, CompetitionOf);
      var competitions := Sort(competitionGroups, CompetitionLeq);
      f := WriteDayFiles(version, days, fault);
      if !f.Works? { return; }
      assert versions == before[version := VersionDir(WriteDays(days), map[], map[])];
      f := WriteCompetitionFiles(version, competitions, segment, fault);
      if !f.Works? { return; }
      assert versions == before[version := VersionDir(WriteDays(days), WriteCompetitions(competitions, segment), map[])];
      f := WriteIndexFile(version, ms, fault);
      if !f.Works? { return; }
      assert versions == before[version := VersionFor(ms, segment)];
      // The temporary file is synced, then renamed over the manifest.
      f := Next(fault);
      if !f.Works? { return; }
      f := Next(fault);
      if !f.Works? { return; }
      var refs := DedupeSourceRefs(sources);
      manifest := Some(Manifest(version, meta, refs, |ms|, DayPaths(days), CompetitionPaths(competitions, segment)));
    }

    method WriteIndexFile(version: Name, ms: seq<LocalMatch>, fault: nat -> Fault) returns (f: Fault)
      requires version in versions
      modifies this`versions, this`steps
      ensures version in versions && versions == old(versions)[version := versions[version]]
      ensures NoFault(fault) ==> f.Works?
      ensures f.Works? ==> versions == old(versions)[version := old(versions)[version].(index := WriteIndex(ms))]
    {
      var index: map<Name, IndexEntry> := map[];
      for i := 0 to |ms|
        invariant index == WriteIndex(ms[..i])
      {
        assert ms[..i + 1][..i] == ms[..i];
        index := index[ms[i].id := EntryFor(ms[i])];
      }
      assert ms[..|ms|] == ms;
      f := Next(fault);
      if f.Works? { versions := versions[version := versions[version].(index := index)]; }
    }

    method WriteDayFiles(version: Name, days: seq<DayEntry>, fault: nat -> Fault) returns (f: Fault)
      requires version in versions && versions[version].byDate == map[]
      modifies this`versions, this`steps
      ensures version in versions && versions == old(versions)[version := versions[version]]
      ensures NoFault(fault) ==> f.Works?
      ensures f.Works? ==> versions == old(versions)[version := old(versions)[version].(byDate := WriteDays(days))]
    {
      hide Sort;
      var empty := versions[version];
      for i := 0 to |days|
        invariant version in versions && versions == old(versions)[version := empty.(byDate := WriteDays(days[..i]))]
      {
        assert days[..i + 1][..i] == days[..i];
        f := Next(fault);
        if !f.Works? { return; }
        var files := versions[version].byDate[days[i].key := Sort(days[i].value, MatchLeq)];
        versions := versions[version := versions[version].(byDate := files)];
      }
      assert days[..|days|] == days;
      f := Works;
    }

    method WriteCompetitionFiles(version: Name, competitions: seq<CompetitionEntry>, segment: Name -> string, fault: nat -> Fault)
        returns (f: Fault)
      requires version in versions && versions[version].byCompetition == map[]
      modifies this`versions, this`steps
      ensures version in versions && versions == old(versions)[version := versions[version]]
      ensures NoFault(fault) ==> f.Works?
      ensures f.Works? ==> versions == old(versions)[version := old(versions)[version].(byCompetition := WriteCompetitions(competitions, segment))]
    {
      hide Sort;
      var empty := versions[version];
      for i := 0 to |competitions|
        invariant version in versions && versions == old(versions)[version := empty.(byCompetition := WriteCompetitions(competitions[..i], segment))]
      {
        assert competitions[..i + 1][..i] == competitions[..i];
        f := Next(fault);
        if !f.Works? { return; }
        var files := versions[version].byCompetition[PathOf(competitions[i].key, segment) := Sort(competitions[i].value, MatchLeq)];
        versions := versions[version := versions[version].(byCompetition := files)];
      }
      assert competitions[..|competitions|] == competitions;
      f := Works;
    }
  }
}
