/** The path segments of the serving store: a name that is safe in a path stands for itself, any other
    for "id-" and its hash. Which names make two competitions share a file. */
module ServingSegments {
  import opened StableSort
  import opened KeyedMerge
  import opened ServingMatches
  import opened ServingStore
  import opened ServingPartitions

  predicate Letter(c: char) { 'A' <= c <= 'Z' || 'a' <= c <= 'z' || '0' <= c <= '9' }

  predicate Safe(s: string) {
    1 <= |s| <= 128 && Letter(s[0]) && forall i :: 1 <= i < |s| ==> Letter(s[i]) || s[i] == '_' || s[i] == '-'
  }

  predicate HexDigest(h: string) { |h| == 64 && forall i :: 0 <= i < 64 ==> '0' <= h[i] <= '9' || 'a' <= h[i] <= 'f' }

  /** How a name is spelt, and SHA-256 in hexadecimal. */
  datatype Naming = Naming(text: Name -> string, hash: string -> string)

  /** Different names are spelt differently, and a hash is 64 hexadecimal digits. Two texts may have
      the same hash. */
  ghost predicate Lawful(n: Naming) {
    && (forall a, b :: n.text(a) == n.text(b) ==> a == b)
    && (forall s :: HexDigest(n.hash(s)))
  }

  function Hashed(n: Naming, s: string): string { "id-" + n.hash(s) }

  /** `safePartitionSegment`. */
  function Segment(n: Naming): Name -> string { (x: Name) => if Safe(n.text(x)) then n.text(x) else Hashed(n, n.text(x)) }

  /** `a` is spelt like the segment of the unsafe name `b`. */
  predicate Aliases(n: Naming, a: Name, b: Name) { !Safe(n.text(b)) && n.text(a) == Hashed(n, n.text(b)) }

  /** Both names are hashed, to the same value. */
  predicate Collides(n: Naming, a: Name, b: Name) {
    !Safe(n.text(a)) && !Safe(n.text(b)) && n.hash(n.text(a)) == n.hash(n.text(b))
  }

  predicate SameSegment(n: Naming, a: Name, b: Name) { a == b || Aliases(n, a, b) || Aliases(n, b, a) || Collides(n, a, b) }

  lemma HashedSafe(n: Naming, s: string)
    requires Lawful(n)
    ensures Safe(Hashed(n, s))
  {
    var h := Hashed(n, s);
    assert HexDigest(n.hash(s)) && |h| == 67;
    forall i | 1 <= i < |h| ensures Letter(h[i]) || h[i] == '_' || h[i] == '-' {
      if i >= 3 { assert h[i] == n.hash(s)[i - 3]; }
    }
  }

  lemma HashedSame(n: Naming, s: string, t: string)
    ensures Hashed(n, s) == Hashed(n, t) <==> n.hash(s) == n.hash(t)
  {
    assert Hashed(n, s)[3..] == n.hash(s) && Hashed(n, t)[3..] == n.hash(t);
  }

  /** Two names share a segment exactly when they are the same, one is spelt like the other's hash, or
      their hashes are equal. */
  lemma SegmentsClashIff(n: Naming, a: Name, b: Name)
    requires Lawful(n)
    ensures Segment(n)(a) == Segment(n)(b) <==> SameSegment(n, a, b)
  {
    HashedSafe(n, n.text(a));
    HashedSafe(n, n.text(b));
    HashedSame(n, n.text(a), n.text(b));
  }

  /** A spelling that shows that what is asked of a naming can be met. */
  function Repeated(c: char, k: nat): string { seq(k, _ => c) }

  function Spelt(x: Name): string {
    if x.rank == 0 then "id-" + Repeated('0', 64) else if x.rank > 0 then Repeated('-', x.rank) else Repeated('_', -x.rank)
  }

  /** What is asked of a naming can be met, together with an alias. */
  lemma NamingExists() returns (n: Naming, a: Name, b: Name)
    ensures Lawful(n) && Aliases(n, a, b)
  {
    n, a, b := Naming(Spelt, (s: string) => Repeated('0', 64)), Name(0), Name(1);
    forall x, y | n.text(x) == n.text(y) ensures x == y {
      assert x.rank != 0 ==> n.text(x)[0] != 'i';
      assert y.rank != 0 ==> n.text(y)[0] != 'i';
    }
  }

  /** Two competitions in use that would be written to one file. */
  ghost predicate Mixed(ms: seq<LocalMatch>, n: Naming, a: CompetitionKey, b: CompetitionKey) {
    a != b && Used(ms, a) && Used(ms, b) && SameSegment(n, a.competitionId, b.competitionId) && SameSegment(n, a.season, b.season)
  }

  /** Whatever the hash: the competition files are right exactly when no two competitions in use have
      the same segments, in id and season, by being spelt like the other's hash or by equal hashes. */
  lemma CompetitionFilesIff(ms: seq<LocalMatch>, n: Naming)
    requires Stored(ms) && Lawful(n)
    ensures CompetitionFiles(ms, VersionFor(ms, Segment(n)).byCompetition, Segment(n)) <==> !exists a, b :: Mixed(ms, n, a, b)
  {
    hide CompetitionFiles, Stored, VersionFor, Lawful, Used, SameSegment, Segment;
    CompetitionsCoverIffInjective(ms, Segment(n));
    forall a, b ensures PathOf(a, Segment(n)) == PathOf(b, Segment(n))
                    <==> SameSegment(n, a.competitionId, b.competitionId) && SameSegment(n, a.season, b.season) {
      SegmentsClashIff(n, a.competitionId, b.competitionId);
      SegmentsClashIff(n, a.season, b.season);
    }
    if InjectivePaths(ms, Segment(n)) {
      forall a, b ensures !Mixed(ms, n, a, b) {}
    } else {
      var a, b :| Used(ms, a) && Used(ms, b) && PathOf(a, Segment(n)) == PathOf(b, Segment(n)) && a != b;
      assert Mixed(ms, n, a, b);
    }
  }

  /** For every unsafe name and a name spelt like its hash there are two valid matches whose
      competitions get one file between them. */
  lemma AliasMixes(n: Naming, a: Name, b: Name, x: LocalMatch, y: LocalMatch)
    requires Lawful(n) && Aliases(n, a, b)
    requires x.competitionId == a && y.competitionId == b && x.season == y.season && x.id != y.id && MatchLeq(x, y)
    ensures Stored([x, y]) && !CompetitionFiles([x, y], VersionFor([x, y], Segment(n)).byCompetition, Segment(n))
  {
    var ms := [x, y];
    assert Ascending(ms, MatchLeq) && UniqueIds(ms);
    hide Lawful, VersionFor, CompetitionFiles;
    CompetitionFilesIff(ms, n);
    assert x in ms && y in ms;
    assert Used(ms, CompetitionOf(x)) && Used(ms, CompetitionOf(y));
    NotItself(n, a, b);
    assert Mixed(ms, n, CompetitionOf(x), CompetitionOf(y));
  }

  lemma NotItself(n: Naming, a: Name, b: Name)
    requires Lawful(n) && Aliases(n, a, b)
    ensures a != b
  {
    HashedSafe(n, n.text(b));
  }
}
