/** Publication of one built artifact into a reprepro repository: what the decision reads,
    when it inserts, and what a success proves. Digests are injective; the Debian version
    order (Debian Policy section 5.6.12) is an arbitrary total preorder given by `rank`. */
module Publication {
  import opened Wrappers
  import opened TextOrder

  datatype Result<+T> = Ok(value: T) | Err(code: Code)

  datatype Code =
    | ConfirmationRequired | Busy | ArtifactUnavailable | ComponentNotConfigured | ArchitectureNotConfigured
    | QueryFailed | ProofFailed | IdentityConflict | DowngradeRefused | ExecutionFailed | NotReady | IncludeFailed
    | SourceChanged

  type Version = string
  type Content = seq<int>

  /** SHA-256, kept abstract and injective. */
  datatype Sha = Sha(content: Content)

  datatype DbRow = DbRow(distribution: string, component: string, architecture: string, package: string, version: Version)

  /** Size, digest and pool path of an index row; `None` when a field is malformed or unsafe. */
  datatype Integrity = Integrity(filename: string, size: int, sha: Sha)
  datatype IndexRow = IndexRow(package: string, version: Version, architecture: string, integrity: Option<Integrity>)

  datatype Place = Place(codename: string, component: string, architecture: string)

  /** Database, exported indexes and pool. An unreadable or missing index is absent. */
  datatype Repository = Repository(database: seq<DbRow>, indexes: map<Place, seq<IndexRow>>, pool: map<string, Content>)

  datatype Config = Config(codename: string, components: set<string>, architectures: seq<string>)

  datatype Source = Source(package: string, version: Version, architecture: string, content: Content)

  // ------------------------------------------------------------ what is listed

  function Configured(architectures: seq<string>): seq<string> {
    if architectures == [] then []
    else
      var last := architectures[|architectures| - 1];
      Configured(architectures[..|architectures| - 1]) + (if last == "all" || last == "source" then [] else [last])
  }

  function TargetArchitectures(config: Config, source: Source): Result<seq<string>> {
    var configured := Configured(config.architectures);
    if source.architecture == "all" then (if configured == [] then Err(ArchitectureNotConfigured) else Ok(configured))
    else if source.architecture !in configured then Err(ArchitectureNotConfigured)
    else Ok([source.architecture])
  }

  predicate IsDbMatch(row: DbRow, config: Config, component: string, architecture: string, source: Source) {
    row == DbRow(config.codename, component, architecture, source.package, source.version)
  }

  function DbMatches(rows: seq<DbRow>, config: Config, component: string, architecture: string, source: Source): seq<DbRow> {
    if rows == [] then []
    else DbMatches(rows[..|rows| - 1], config, component, architecture, source)
         + (if IsDbMatch(rows[|rows| - 1], config, component, architecture, source) then [rows[|rows| - 1]] else [])
  }

  predicate IsIndexMatch(row: IndexRow, source: Source) {
    row.package == source.package && row.version == source.version && row.architecture == source.architecture
  }

  function IndexMatches(rows: seq<IndexRow>, source: Source): seq<IndexRow> {
    if rows == [] then []
    else IndexMatches(rows[..|rows| - 1], source) + (if IsIndexMatch(rows[|rows| - 1], source) then [rows[|rows| - 1]] else [])
  }

  /** _exact_index_entry: the one exact row, none, or an error. */
  function ExactIndexEntry(repo: Repository, place: Place, source: Source, required: bool): Result<Option<Integrity>> {
    if place !in repo.indexes then (if required then Err(ProofFailed) else Ok(None))
    else
      var matches := IndexMatches(repo.indexes[place], source);
      if matches == [] then (if required then Err(ProofFailed) else Ok(None))
      else if |matches| != 1 then Err(IdentityConflict)
      else if matches[0].integrity.None? || matches[0].integrity.value.size < 0 then Err(ProofFailed)
      else Ok(matches[0].integrity)
  }

  /** Versions the database and the exported indexes list for this package and its targets. */
  ghost predicate Lists(repo: Repository, config: Config, component: string, source: Source, targets: seq<string>, v: Version) {
    (exists a :: a in targets && DbRow(config.codename, component, a, source.package, v) in repo.database)
    || (v != "" && exists a, row :: a in targets && ListedIn(repo, Place(config.codename, component, a), source, row) && row.version == v)
  }

  predicate ListedIn(repo: Repository, place: Place, source: Source, row: IndexRow) {
    place in repo.indexes && row in repo.indexes[place] && row.package == source.package && row.architecture == source.architecture
  }

  // ------------------------------------------------------ what these functions find

  /** The architectures an artifact is published for: every configured binary architecture for
      "all", and its own one otherwise. */
  predicate Wanted(config: Config, source: Source, a: string) {
    a in config.architectures && a != "all" && a != "source" && (source.architecture == "all" || a == source.architecture)
  }

  lemma {:induction false} ConfiguredExactly(architectures: seq<string>, a: string)
    ensures a in Configured(architectures) <==> a in architectures && a != "all" && a != "source"
  {
    if architectures != [] {
      ConfiguredExactly(architectures[..|architectures| - 1], a);
      assert architectures == architectures[..|architectures| - 1] + [architectures[|architectures| - 1]];
    }
  }

  /** The targets are exactly the wanted architectures, and an error means there is none. */
  lemma TargetsExactly(config: Config, source: Source)
    ensures var t := TargetArchitectures(config, source);
            && (t.Ok? <==> exists a :: Wanted(config, source, a))
            && (t.Ok? ==> t.value != [] && forall a :: a in t.value <==> Wanted(config, source, a))
            && (t.Err? ==> t.code == ArchitectureNotConfigured)
  {
    forall a ensures a in Configured(config.architectures) <==> a in config.architectures && a != "all" && a != "source" {
      ConfiguredExactly(config.architectures, a);
    }
    var configured := Configured(config.architectures);
    if configured != [] && source.architecture == "all" {
      assert configured[0] in configured;
      assert Wanted(config, source, configured[0]);
    }
    if source.architecture in configured { assert Wanted(config, source, source.architecture); }
  }

  /** The database holds this identity exactly once. */
  ghost predicate HeldOnce(rows: seq<DbRow>, row: DbRow) {
    exists i :: 0 <= i < |rows| && rows[i] == row && forall j :: 0 <= j < |rows| && rows[j] == row ==> j == i
  }

  lemma {:induction false} DbMatchesExactly(rows: seq<DbRow>, config: Config, component: string, a: string, source: Source)
    ensures var row := DbRow(config.codename, component, a, source.package, source.version);
            && (DbMatches(rows, config, component, a, source) == [] <==> row !in rows)
            && (|DbMatches(rows, config, component, a, source)| == 1 <==> HeldOnce(rows, row))
  {
    if rows != [] {
      var row, init, last := DbRow(config.codename, component, a, source.package, source.version), rows[..|rows| - 1], rows[|rows| - 1];
      DbMatchesExactly(init, config, component, a, source);
      assert rows == init + [last];
      HeldOnceAppend(init, last, row);
    }
  }

  lemma HeldOnceAppend(init: seq<DbRow>, last: DbRow, row: DbRow)
    ensures HeldOnce(init + [last], row) <==> if last == row then row !in init else HeldOnce(init, row)
  {
    var rows := init + [last];
    assert rows[|init|] == last && forall i :: 0 <= i < |init| ==> rows[i] == init[i];
    if last == row && row !in init { assert rows[|init|] == row; }
    if last != row && HeldOnce(init, row) {
      var i :| 0 <= i < |init| && init[i] == row && forall j :: 0 <= j < |init| && init[j] == row ==> j == i;
      assert rows[i] == row;
    }
    if last != row && HeldOnce(rows, row) {
      var i :| 0 <= i < |rows| && rows[i] == row && forall j :: 0 <= j < |rows| && rows[j] == row ==> j == i;
      assert init[i] == row;
    }
  }

  /** An index row of exactly this package, version and architecture. */
  predicate RowOf(row: IndexRow, source: Source) {
    (row.package, row.version, row.architecture) == (source.package, source.version, source.architecture)
  }

  /** Row `i` is the only one of this identity. */
  ghost predicate OnlyRow(rows: seq<IndexRow>, source: Source, i: int) {
    0 <= i < |rows| && RowOf(rows[i], source) && forall j :: 0 <= j < |rows| && RowOf(rows[j], source) ==> j == i
  }

  lemma {:induction false} IndexMatchesExactly(rows: seq<IndexRow>, source: Source)
    ensures IndexMatches(rows, source) == [] <==> forall i :: 0 <= i < |rows| ==> !RowOf(rows[i], source)
    ensures |IndexMatches(rows, source)| == 1 <==> exists i :: OnlyRow(rows, source, i)
    ensures forall i :: OnlyRow(rows, source, i) ==> IndexMatches(rows, source) == [rows[i]]
  {
    if rows != [] {
      var init, last := rows[..|rows| - 1], rows[|rows| - 1];
      IndexMatchesExactly(init, source);
      assert rows == init + [last];
      assert rows[|init|] == last && forall i :: 0 <= i < |init| ==> rows[i] == init[i];
      if RowOf(last, source) {
        forall i | OnlyRow(rows, source, i) ensures i == |init| && IndexMatches(init, source) == [] {}
        if IndexMatches(init, source) == [] { assert OnlyRow(rows, source, |init|); }
      } else {
        forall i ensures OnlyRow(rows, source, i) <==> OnlyRow(init, source, i) {}
      }
    }
  }

  /** What an exact lookup in one exported index answers. */
  lemma EntryExactly(repo: Repository, place: Place, source: Source, required: bool)
    ensures var r := ExactIndexEntry(repo, place, source, required);
            && (forall x: Integrity :: r == Ok(Some(x)) <==>
                  place in repo.indexes && x.size >= 0
                  && exists i :: OnlyRow(repo.indexes[place], source, i) && repo.indexes[place][i].integrity == Some(x))
            && (r == Ok(None) <==> !required && Unlisted(repo, place, source))
            && (r.Err? ==> r.code in {ProofFailed, IdentityConflict})
            && (r == Err(IdentityConflict) <==> !Unlisted(repo, place, source) && !exists i :: OnlyRow(repo.indexes[place], source, i))
  {
    hide IndexMatches;
    if place in repo.indexes { IndexMatchesExactly(repo.indexes[place], source); }
  }

  /** The exported index does not list this identity, or there is none. */
  predicate Unlisted(repo: Repository, place: Place, source: Source) {
    place in repo.indexes ==> forall i :: 0 <= i < |repo.indexes[place]| ==> !RowOf(repo.indexes[place][i], source)
  }

  // ---------------------------------------------------------------- the proof

  /** One architecture holds exactly the source: one database identity, one index entry for it
      with the source's size and digest, and a pool file with the source's bytes. */
  ghost predicate HeldExactly(repo: Repository, config: Config, component: string, source: Source, a: string) {
    var place := Place(config.codename, component, a);
    && HeldOnce(repo.database, DbRow(config.codename, component, a, source.package, source.version))
    && place in repo.indexes
    && exists i, filename :: OnlyRow(repo.indexes[place], source, i) && PoolHolds(repo, repo.indexes[place][i], filename, source)
  }

  predicate PoolHolds(repo: Repository, row: IndexRow, filename: string, source: Source) {
    && row.integrity == Some(Integrity(filename, |source.content|, Sha(source.content)))
    && filename in repo.pool && repo.pool[filename] == source.content
  }

  /** One architecture contradicts the source: the identity is recorded or indexed twice, its index
      entry has another size or digest, or its pool file other bytes. */
  ghost predicate ConflictsAt(repo: Repository, config: Config, component: string, source: Source, a: string) {
    var place, row := Place(config.codename, component, a), DbRow(config.codename, component, a, source.package, source.version);
    && row in repo.database
    && (HeldOnce(repo.database, row) ==>
          && place in repo.indexes && !Unlisted(repo, place, source)
          && forall i :: OnlyRow(repo.indexes[place], source, i) ==> EntryConflicts(repo, repo.indexes[place][i], source))
  }

  predicate EntryConflicts(repo: Repository, row: IndexRow, source: Source) {
    && row.integrity.Some? && row.integrity.value.size >= 0
    && (|| (row.integrity.value.size, row.integrity.value.sha) != (|source.content|, Sha(source.content))
        || (row.integrity.value.filename in repo.pool && repo.pool[row.integrity.value.filename] != source.content))
  }

  function TargetError(repo: Repository, config: Config, component: string, source: Source, architecture: string): Option<Code> {
    var matches := DbMatches(repo.database, config, component, architecture, source);
    if |matches| != 1 then Some(if matches == [] then ProofFailed else IdentityConflict)
    else
      var entry := ExactIndexEntry(repo, Place(config.codename, component, architecture), source, true);
      if entry.Err? then Some(entry.code)
      else if entry.value.None? then Some(ProofFailed)
      else if entry.value.value.size != |source.content| || entry.value.value.sha != Sha(source.content) then Some(IdentityConflict)
      else if entry.value.value.filename !in repo.pool then Some(ProofFailed)
      else if |repo.pool[entry.value.value.filename]| != |source.content|
              || Sha(repo.pool[entry.value.value.filename]) != Sha(source.content) then Some(IdentityConflict)
      else None
  }

  lemma TargetExactly(repo: Repository, config: Config, component: string, source: Source, a: string)
    ensures TargetError(repo, config, component, source, a).None? <==> HeldExactly(repo, config, component, source, a)
    ensures TargetError(repo, config, component, source, a) in {None, Some(ProofFailed), Some(IdentityConflict)}
    ensures TargetError(repo, config, component, source, a) == Some(IdentityConflict) <==> ConflictsAt(repo, config, component, source, a)
  {
    hide DbMatches, ExactIndexEntry, HeldOnce;
    var place := Place(config.codename, component, a);
    DbMatchesExactly(repo.database, config, component, a, source);
    EntryExactly(repo, place, source, true);
    var entry := ExactIndexEntry(repo, place, source, true);
    if TargetError(repo, config, component, source, a).None? {
      var i :| OnlyRow(repo.indexes[place], source, i) && repo.indexes[place][i].integrity == entry.value;
      assert PoolHolds(repo, repo.indexes[place][i], entry.value.value.filename, source);
    }
    if HeldExactly(repo, config, component, source, a) {
      var i, filename :| OnlyRow(repo.indexes[place], source, i) && PoolHolds(repo, repo.indexes[place][i], filename, source);
      assert entry == Ok(Some(Integrity(filename, |source.content|, Sha(source.content))));
    }
    ConflictExactly(repo, config, component, source, a);
  }

  lemma ConflictExactly(repo: Repository, config: Config, component: string, source: Source, a: string)
    ensures TargetError(repo, config, component, source, a) == Some(IdentityConflict) <==> ConflictsAt(repo, config, component, source, a)
  {
    hide DbMatches, ExactIndexEntry, HeldOnce;
    var place := Place(config.codename, component, a);
    DbMatchesExactly(repo.database, config, component, a, source);
    EntryExactly(repo, place, source, true);
    if place in repo.indexes && exists i :: OnlyRow(repo.indexes[place], source, i) {
      var i :| OnlyRow(repo.indexes[place], source, i);
      assert forall j :: OnlyRow(repo.indexes[place], source, j) ==> j == i;
    }
  }

  ghost predicate Proven(repo: Repository, config: Config, component: string, source: Source, targets: seq<string>) {
    forall a :: a in targets ==> HeldExactly(repo, config, component, source, a)
  }

  /** _proof: every target in turn, then the source once more. */
  method Prove(repo: Repository, config: Config, component: string, source: Source, targets: seq<string>, pinned: bool)
    returns (error: Option<Code>)
    ensures error.None? <==> pinned && Proven(repo, config, component, source, targets)
    ensures error.Some? ==> error.value in {ProofFailed, IdentityConflict, SourceChanged}
    ensures error == Some(SourceChanged) <==> !pinned && Proven(repo, config, component, source, targets)
    ensures error == Some(IdentityConflict) <==>
      exists i :: 0 <= i < |targets| && ConflictsAt(repo, config, component, source, targets[i])
                  && forall j :: 0 <= j < i ==> HeldExactly(repo, config, component, source, targets[j])
  {
    hide HeldExactly, TargetError, ConflictsAt;
    for i := 0 to |targets|
      invariant forall j :: 0 <= j < i ==>
        HeldExactly(repo, config, component, source, targets[j]) && !ConflictsAt(repo, config, component, source, targets[j])
    {
      TargetExactly(repo, config, component, source, targets[i]);
      error := TargetError(repo, config, component, source, targets[i]);
      if error.Some? { return; }
    }
    return if pinned then None else Some(SourceChanged);
  }

  // ------------------------------------------------------------ version checks

  datatype Relation = Newer | Older | Same | Unordered

  /** debian_version_relation: identical text is equal, and dpkg must order anything else. */
  function VersionRelation(rank: Version -> real, candidate: Version, published: Version): Relation {
    if candidate == published then Same
    else if rank(candidate) > rank(published) then Newer
    else if rank(candidate) < rank(published) then Older
    else Unordered
  }

  /** Compare against the published versions in text order; the first refusal wins. */
  method CheckNotOlder(rank: Version -> real, candidate: Version, published: set<Version>) returns (error: Option<Code>)
    ensures error.None? <==> forall v :: v in published ==> VersionRelation(rank, candidate, v) in {Newer, Same}
    ensures error.Some? ==> error.value == DowngradeRefused || error.value == ExecutionFailed
    ensures error == Some(DowngradeRefused) ==> exists v :: v in published && rank(candidate) < rank(v)
    ensures error == Some(ExecutionFailed) ==> exists v :: v in published && v != candidate && rank(candidate) == rank(v)
  {
    var sorted := Sort(published);
    for i := 0 to |sorted|
      invariant forall j :: 0 <= j < i ==> VersionRelation(rank, candidate, sorted[j]) in {Newer, Same}
    {
      var relation := VersionRelation(rank, candidate, sorted[i]);
      assert sorted[i] in Elements(sorted);
      if relation == Older { return Some(DowngradeRefused); }
      if relation == Unordered { return Some(ExecutionFailed); }
    }
    assert forall v :: v in published ==> v in Elements(sorted);
    return None;
  }

  /** The versions collected from the database and from each target's index. */
  method PublishedVersions(repo: Repository, config: Config, component: string, source: Source, targets: seq<string>)
    returns (versions: set<Version>)
    ensures forall v :: v in versions <==> Lists(repo, config, component, source, targets, v)
  {
    versions := {};
    for i := 0 to |repo.database|
      invariant forall v :: v in versions <==>
        exists a, j :: a in targets && 0 <= j < i && repo.database[j] == DbRow(config.codename, component, a, source.package, v)
    {
      var row := repo.database[i];
      if row.distribution == config.codename && row.component == component && row.architecture in targets && row.package == source.package {
        assert row == DbRow(config.codename, component, row.architecture, source.package, row.version);
        versions := versions + {row.version};
      }
    }
    assert forall v :: v in versions <==> exists a :: a in targets && DbRow(config.codename, component, a, source.package, v) in repo.database;
    ghost var fromDatabase := versions;
    for t := 0 to |targets|
      invariant forall v :: v in versions <==>
        (v in fromDatabase || (v != "" && exists a, row ::
          a in targets[..t] && ListedIn(repo, Place(config.codename, component, a), source, row) && row.version == v))
    {
      var place := Place(config.codename, component, targets[t]);
      var listed := IndexVersions(repo, place, source);
      versions := versions + listed;
      assert targets[..t + 1] == targets[..t] + [targets[t]];
    }
    assert targets[..|targets|] == targets;
  }

  method IndexVersions(repo: Repository, place: Place, source: Source) returns (versions: set<Version>)
    ensures forall v :: v in versions <==> v != "" && exists row :: ListedIn(repo, place, source, row) && row.version == v
  {
    versions := {};
    if place !in repo.indexes { return; }
    var rows := repo.indexes[place];
    for i := 0 to |rows|
      invariant forall v :: v in versions <==> v != "" && exists row :: row in rows[..i] && ListedIn(repo, place, source, row) && row.version == v
    {
      assert rows[..i + 1] == rows[..i] + [rows[i]];
      var row := rows[i];
      if row.package == source.package && row.architecture == source.architecture && row.version != "" {
        assert ListedIn(repo, place, source, row);
        versions := versions + {row.version};
      }
    }
    assert rows[..|rows|] == rows;
  }

  // -------------------------------------------------------------- the decision

  /** One publication request; everything outside the decision is an arbitrary observation,
      including the repository that includedeb leaves behind. */
  datatype Request = Request(
    config: Config, component: string, source: Source, rank: Version -> real,
    confirmed: bool, leased: bool, artifactOk: bool, queryOk: bool,   // checks before the decision
    ready: bool,                                                      // Validation authorizes insertion
    pinned: bool,                                                     // the source stayed what it was
    included: bool, after: Repository)                                // what includedeb did

  datatype Attempt = Succeeded | Failed(code: Code)

  predicate Wants(q: Request, a: string) { Wanted(q.config, q.source, a) }

  function PlaceOf(q: Request, a: string): Place { Place(q.config.codename, q.component, a) }

  ghost predicate Reaches(q: Request) {
    && q.confirmed && q.leased && q.artifactOk && q.component in q.config.components
    && (exists a :: Wants(q, a)) && q.queryOk
  }

  /** Every wanted index either does not list the identity or lists it once, with usable fields. */
  ghost predicate IndexReadable(repo: Repository, q: Request) {
    forall a :: Wants(q, a) ==> EntryReadable(repo, PlaceOf(q, a), q.source)
  }

  ghost predicate EntryReadable(repo: Repository, place: Place, source: Source) {
    Unlisted(repo, place, source)
    || (place in repo.indexes
        && exists i, x: Integrity :: OnlyRow(repo.indexes[place], source, i) && repo.indexes[place][i].integrity == Some(x) && x.size >= 0)
  }

  ghost predicate IndexPresent(repo: Repository, q: Request) {
    exists a :: Wants(q, a) && !Unlisted(repo, PlaceOf(q, a), q.source)
  }

  ghost predicate DatabasePresent(repo: Repository, q: Request) {
    exists a :: Wants(q, a) && DbRow(q.config.codename, q.component, a, q.source.package, q.source.version) in repo.database
  }

  ghost predicate DatabaseComplete(repo: Repository, q: Request) {
    forall a :: Wants(q, a) ==> HeldOnce(repo.database, DbRow(q.config.codename, q.component, a, q.source.package, q.source.version))
  }

  /** The database or an exported index lists this version for a wanted architecture. */
  ghost predicate Listed(repo: Repository, q: Request, v: Version) {
    exists a :: Wants(q, a) && ListedAt(repo, q, a, v)
  }

  ghost predicate ListedAt(repo: Repository, q: Request, a: string, v: Version) {
    DbRow(q.config.codename, q.component, a, q.source.package, v) in repo.database
    || (v != "" && exists row :: ListedIn(repo, PlaceOf(q, a), q.source, row) && row.version == v)
  }

  /** The candidate is the version listed or newer, for every version listed. */
  ghost predicate Ordered(repo: Repository, q: Request) {
    forall v :: Listed(repo, q, v) ==> v == q.source.version || q.rank(v) < q.rank(q.source.version)
  }

  ghost predicate ProvenFor(repo: Repository, q: Request) {
    forall a :: Wants(q, a) ==> HeldExactly(repo, q.config, q.component, q.source, a)
  }

  /** Exactly when a request inserts, exactly when it succeeds, and what it leaves behind. */
  ghost predicate Decided(repo: Repository, q: Request, attempt: Attempt, inserted: bool, after: Repository) {
    && (inserted <==> Reaches(q) && IndexReadable(repo, q) && !DatabasePresent(repo, q) && !IndexPresent(repo, q)
                      && Ordered(repo, q) && q.ready)
    && after == (if inserted then q.after else repo)
    && (attempt.Succeeded? <==>
          Reaches(q) && IndexReadable(repo, q) && q.pinned
          && (if DatabasePresent(repo, q) then ProvenFor(repo, q) else inserted && q.included && ProvenFor(q.after, q)))
  }

  /** Which refusal is reported, in the order the checks are made. */
  ghost predicate RefusedAs(repo: Repository, q: Request, attempt: Attempt, inserted: bool) {
    && (attempt == Failed(ConfirmationRequired) <==> !q.confirmed)
    && (attempt == Failed(Busy) <==> q.confirmed && !q.leased)
    && (attempt == Failed(ArtifactUnavailable) <==> q.confirmed && q.leased && !q.artifactOk)
    && (attempt == Failed(ComponentNotConfigured) <==>
          q.confirmed && q.leased && q.artifactOk && q.component !in q.config.components)
    && (attempt == Failed(ArchitectureNotConfigured) <==>
          q.confirmed && q.leased && q.artifactOk && q.component in q.config.components && !exists a :: Wants(q, a))
    && (attempt == Failed(QueryFailed) <==>
          && q.confirmed && q.leased && q.artifactOk && q.component in q.config.components
          && (exists a :: Wants(q, a)) && !q.queryOk)
    && (attempt == Failed(NotReady) <==>
          && Reaches(q) && IndexReadable(repo, q) && !DatabasePresent(repo, q) && !IndexPresent(repo, q)
          && Ordered(repo, q) && !q.ready)
    && (attempt == Failed(DowngradeRefused) ==> exists v :: Listed(repo, q, v) && q.rank(q.source.version) < q.rank(v))
    && (attempt == Failed(IncludeFailed) <==> inserted && !q.included)
    && (Reaches(q) && IndexReadable(repo, q) && DatabasePresent(repo, q) && !DatabaseComplete(repo, q) ==> attempt == Failed(ProofFailed))
  }

  /** publish_artifact */
  method PublishArtifact(repo: Repository, q: Request) returns (attempt: Attempt, inserted: bool, after: Repository)
    ensures Decided(repo, q, attempt, inserted, after)
    ensures RefusedAs(repo, q, attempt, inserted)
  {
    hide TargetArchitectures, Wanted, HeldExactly, EntryReadable, Unlisted, Lists, Listed, Proven, ProvenFor, ConflictsAt,
         DatabasePresent, DatabaseComplete, IndexPresent, IndexReadable, Ordered;
    inserted, after := false, repo;
    if !q.confirmed { return Failed(ConfirmationRequired), inserted, after; }
    if !q.leased { return Failed(Busy), inserted, after; }
    if !q.artifactOk { return Failed(ArtifactUnavailable), inserted, after; }
    if q.component !in q.config.components { return Failed(ComponentNotConfigured), inserted, after; }
    var targets := TargetArchitectures(q.config, q.source);
    RequestTargets(q);
    if targets.Err? { return Failed(targets.code), inserted, after; }
    if !q.queryOk { return Failed(QueryFailed), inserted, after; }
    var present, complete := DatabasePreflight(repo, q, targets.value);
    var indexed, unreadable := IndexPreflight(repo, q, targets.value);
    if unreadable.Some? { return Failed(unreadable.value), inserted, after; }
    var error: Option<Code>;
    ProvenTargets(repo, q, targets.value);
    ProvenTargets(q.after, q, targets.value);
    if present {
      if !complete {
        IncompleteFails(repo, q);
        return Failed(ProofFailed), inserted, after;
      }
      error := Prove(repo, q.config, q.component, q.source, targets.value, q.pinned);
      return if error.Some? then Failed(error.value) else Succeeded, inserted, after;
    }
    if indexed { return Failed(IdentityConflict), inserted, after; }
    var versions := PublishedVersions(repo, q.config, q.component, q.source, targets.value);
    error := CheckNotOlder(q.rank, q.source.version, versions);
    OrderedTargets(repo, q, targets.value, versions);
    if error.Some? { return Failed(error.value), inserted, after; }
    if !q.ready { return Failed(NotReady), inserted, after; }
    inserted, after := true, q.after;
    if !q.included { return Failed(IncludeFailed), inserted, after; }
    error := Prove(after, q.config, q.component, q.source, targets.value, q.pinned);
    attempt := if error.Some? then Failed(error.value) else Succeeded;
  }

  lemma RequestTargets(q: Request)
    ensures var t := TargetArchitectures(q.config, q.source);
            && (t.Ok? <==> exists a :: Wants(q, a)) && (t.Ok? ==> forall a :: a in t.value <==> Wants(q, a))
            && (t.Err? ==> t.code == ArchitectureNotConfigured)
  {
    hide Wanted, TargetArchitectures;
    TargetsExactly(q.config, q.source);
    if a :| Wanted(q.config, q.source, a) { assert Wants(q, a); }
  }

  lemma ProvenTargets(repo: Repository, q: Request, targets: seq<string>)
    requires forall a :: a in targets <==> Wants(q, a)
    ensures Proven(repo, q.config, q.component, q.source, targets) <==> ProvenFor(repo, q)
  {
    hide HeldExactly;
  }

  lemma OrderedTargets(repo: Repository, q: Request, targets: seq<string>, versions: set<Version>)
    requires forall a :: a in targets <==> Wants(q, a)
    requires forall v :: v in versions <==> Lists(repo, q.config, q.component, q.source, targets, v)
    ensures forall v :: v in versions <==> Listed(repo, q, v)
    ensures Ordered(repo, q) <==> forall v :: v in versions ==> VersionRelation(q.rank, q.source.version, v) in {Newer, Same}
  {
    hide Wanted, Lists, Listed;
    forall v ensures v in versions <==> Listed(repo, q, v) { ListedTargets(repo, q, targets, v); }
  }

  lemma ListedTargets(repo: Repository, q: Request, targets: seq<string>, v: Version)
    requires forall a :: a in targets <==> Wants(q, a)
    ensures Lists(repo, q.config, q.component, q.source, targets, v) <==> Listed(repo, q, v)
  {
    hide Wanted, ListedIn;
    if Lists(repo, q.config, q.component, q.source, targets, v) {
      if a :| a in targets && DbRow(q.config.codename, q.component, a, q.source.package, v) in repo.database {
        assert Wants(q, a) && ListedAt(repo, q, a, v);
      } else {
        var a, row :| a in targets && ListedIn(repo, Place(q.config.codename, q.component, a), q.source, row) && row.version == v;
        assert Wants(q, a) && ListedAt(repo, q, a, v);
      }
    }
    if Listed(repo, q, v) {
      var a :| Wants(q, a) && ListedAt(repo, q, a, v);
      assert a in targets;
    }
  }

  /** The exact database matches per target architecture. */
  method DatabasePreflight(repo: Repository, q: Request, targets: seq<string>) returns (present: bool, complete: bool)
    requires forall a :: a in targets <==> Wants(q, a)
    ensures present <==> DatabasePresent(repo, q)
    ensures complete <==> DatabaseComplete(repo, q)
  {
    hide DbMatches, Wanted;
    present, complete := false, true;
    for i := 0 to |targets|
      invariant present <==> exists j :: 0 <= j < i && DbMatches(repo.database, q.config, q.component, targets[j], q.source) != []
      invariant complete <==> forall j :: 0 <= j < i ==> |DbMatches(repo.database, q.config, q.component, targets[j], q.source)| == 1
    {
      var matches := DbMatches(repo.database, q.config, q.component, targets[i], q.source);
      present := present || matches != [];
      complete := complete && |matches| == 1;
    }
    PreflightMeans(repo, q, targets);
  }

  lemma IncompleteFails(repo: Repository, q: Request)
    requires !DatabaseComplete(repo, q)
    ensures !ProvenFor(repo, q)
  {
  }

  lemma PreflightMeans(repo: Repository, q: Request, targets: seq<string>)
    requires forall a :: a in targets <==> Wants(q, a)
    ensures DatabasePresent(repo, q) <==> exists j :: 0 <= j < |targets| && DbMatches(repo.database, q.config, q.component, targets[j], q.source) != []
    ensures DatabaseComplete(repo, q) <==> forall j :: 0 <= j < |targets| ==> |DbMatches(repo.database, q.config, q.component, targets[j], q.source)| == 1
  {
    hide DbMatches, Wanted, HeldOnce;
    forall a ensures var row := DbRow(q.config.codename, q.component, a, q.source.package, q.source.version);
                     && (DbMatches(repo.database, q.config, q.component, a, q.source) == [] <==> row !in repo.database)
                     && (|DbMatches(repo.database, q.config, q.component, a, q.source)| == 1 <==> HeldOnce(repo.database, row))
    {
      DbMatchesExactly(repo.database, q.config, q.component, a, q.source);
    }
    if DatabasePresent(repo, q) {
      var a :| Wants(q, a) && DbRow(q.config.codename, q.component, a, q.source.package, q.source.version) in repo.database;
      assert a in targets;
      var j :| 0 <= j < |targets| && targets[j] == a;
    }
    forall j | DatabaseComplete(repo, q) && 0 <= j < |targets| ensures |DbMatches(repo.database, q.config, q.component, targets[j], q.source)| == 1 {
      assert targets[j] in targets && Wants(q, targets[j]);
    }
  }

  /** The exact index entries per target architecture; the first error wins. */
  method IndexPreflight(repo: Repository, q: Request, targets: seq<string>) returns (indexed: bool, unreadable: Option<Code>)
    requires forall a :: a in targets <==> Wants(q, a)
    ensures unreadable.None? <==> IndexReadable(repo, q)
    ensures unreadable.None? ==> (indexed <==> IndexPresent(repo, q))
    ensures unreadable.Some? ==> unreadable.value in {ProofFailed, IdentityConflict}
  {
    hide ExactIndexEntry, Wanted, EntryReadable, Unlisted;
    indexed, unreadable := false, None;
    for i := 0 to |targets|
      invariant forall j :: 0 <= j < i ==> EntryReadable(repo, PlaceOf(q, targets[j]), q.source)
      invariant indexed <==> exists j :: 0 <= j < i && !Unlisted(repo, PlaceOf(q, targets[j]), q.source)
    {
      var entry := ExactIndexEntry(repo, PlaceOf(q, targets[i]), q.source, false);
      LookupMeans(repo, PlaceOf(q, targets[i]), q.source);
      if entry.Err? {
        assert targets[i] in targets;
        return false, Some(entry.code);
      }
      indexed := indexed || entry.value.Some?;
    }
    forall a | Wants(q, a) ensures exists j :: 0 <= j < |targets| && targets[j] == a { assert a in targets; }
  }

  lemma LookupMeans(repo: Repository, place: Place, source: Source)
    ensures var r := ExactIndexEntry(repo, place, source, false);
            && (r.Err? ==> r.code in {ProofFailed, IdentityConflict})
            && (r.Ok? <==> EntryReadable(repo, place, source)) && (r.Ok? ==> (r.value.Some? <==> !Unlisted(repo, place, source)))
  {
    hide ExactIndexEntry, Unlisted;
    EntryExactly(repo, place, source, false);
    var r := ExactIndexEntry(repo, place, source, false);
    ListedNotUnlisted(repo, place, source);
    if r.Ok? && r.value.Some? {
      var i :| OnlyRow(repo.indexes[place], source, i) && repo.indexes[place][i].integrity == r.value;
    }
  }

  lemma ListedNotUnlisted(repo: Repository, place: Place, source: Source)
    ensures place in repo.indexes && (exists i :: OnlyRow(repo.indexes[place], source, i)) ==> !Unlisted(repo, place, source)
  {
  }

  // ------------------------------------------------------------ what it promises

  /** A version that neither preflight finds is not listed. */
  lemma AbsentIsUnlisted(repo: Repository, q: Request)
    requires !DatabasePresent(repo, q) && !IndexPresent(repo, q)
    ensures !Listed(repo, q, q.source.version)
  {
    hide Wanted;
    forall a | Wants(q, a) ensures !ListedAt(repo, q, a, q.source.version) {
      assert Unlisted(repo, PlaceOf(q, a), q.source);
    }
  }

  /** Whenever includedeb runs, the candidate is strictly newer than every version that the
      database and the indexes list for the architectures it is published for. */
  lemma InsertsOnlyStrictlyNewer(repo: Repository, q: Request, attempt: Attempt, inserted: bool, after: Repository, v: Version)
    requires Decided(repo, q, attempt, inserted, after) && inserted && Listed(repo, q, v)
    ensures q.rank(v) < q.rank(q.source.version)
  {
    hide Listed, DatabasePresent, IndexPresent, IndexReadable, Reaches, ProvenFor;
    AbsentIsUnlisted(repo, q);
  }

  /** A success means that every architecture the artifact is published for, and there is at
      least one, holds exactly the source. */
  lemma SuccessIsProof(repo: Repository, q: Request, attempt: Attempt, inserted: bool, after: Repository)
    requires Decided(repo, q, attempt, inserted, after) && attempt.Succeeded?
    ensures exists a :: Wants(q, a)
    ensures forall a :: Wants(q, a) ==> HeldExactly(after, q.config, q.component, q.source, a) && ListedAt(after, q, a, q.source.version)
    ensures Listed(after, q, q.source.version)
  {
    hide Wanted, OnlyRow;
  }

  /** Publishing again on the repository a success left behind succeeds without inserting or
      changing anything, whatever the Validation readiness. */
  lemma ReplayIsPure(repo: Repository, q: Request, attempt: Attempt, inserted: bool, after: Repository,
                     again: Request, attempt2: Attempt, inserted2: bool, after2: Repository)
    requires Decided(repo, q, attempt, inserted, after) && attempt.Succeeded?
    requires again.config == q.config && again.component == q.component && again.source == q.source
    requires again.confirmed && again.leased && again.artifactOk && again.queryOk && again.pinned
    requires Decided(after, again, attempt2, inserted2, after2)
    ensures attempt2.Succeeded? && !inserted2 && after2 == after
  {
    hide Wanted, Unlisted;
    SuccessIsProof(repo, q, attempt, inserted, after);
    forall a | Wants(again, a) ensures EntryReadable(after, PlaceOf(again, a), again.source) {
      assert Wants(q, a) && HeldExactly(after, q.config, q.component, q.source, a);
      var i, filename :| OnlyRow(after.indexes[PlaceOf(q, a)], q.source, i) && PoolHolds(after, after.indexes[PlaceOf(q, a)][i], filename, q.source);
    }
    assert ProvenFor(after, again) by { assert forall a :: Wants(again, a) ==> Wants(q, a); }
    var a :| Wants(q, a);
    assert HeldExactly(after, q.config, q.component, q.source, a) && Wants(again, a);
  }

  // ------------------------------------------------------------- over many calls

  /** One call of a history: the repository it found and what it decided. */
  datatype Call = Call(before: Repository, request: Request, attempt: Attempt, inserted: bool, after: Repository)

  /** All calls concern one package in one place, under one version order. */
  ghost predicate SameSubject(a: Request, b: Request) {
    && a.config == b.config && a.component == b.component && a.rank == b.rank
    && a.source.package == b.source.package && a.source.architecture == b.source.architecture
  }

  /** Nothing listed is withdrawn without something at least as new being listed. */
  ghost predicate NoRemoval(q: Request, a: Repository, b: Repository) {
    forall v :: Listed(a, q, v) ==> exists w :: Listed(b, q, w) && q.rank(v) <= q.rank(w)
  }

  ghost predicate History(calls: seq<Call>) {
    && (forall i :: 0 <= i < |calls| ==>
          Decided(calls[i].before, calls[i].request, calls[i].attempt, calls[i].inserted, calls[i].after))
    && (forall i :: 0 <= i < |calls| ==> SameSubject(calls[0].request, calls[i].request))
    && (forall i :: 0 <= i < |calls| ==> NoRemoval(calls[0].request, calls[i].before, calls[i].after))
    && (forall i :: 0 < i < |calls| ==> NoRemoval(calls[0].request, calls[i - 1].after, calls[i].before))
  }

  lemma SameListing(repo: Repository, a: Request, b: Request, v: Version)
    requires SameSubject(a, b)
    ensures Listed(repo, a, v) <==> Listed(repo, b, v)
  {
    assert forall x :: Wants(a, x) <==> Wants(b, x);
    assert forall place, row :: ListedIn(repo, place, a.source, row) <==> ListedIn(repo, place, b.source, row);
    hide Wanted, ListedIn;
    assert forall x :: ListedAt(repo, a, x, v) <==> ListedAt(repo, b, x, v);
  }

  lemma {:induction false} StaysListed(calls: seq<Call>, i: nat, j: nat, v: Version) returns (w: Version)
    requires History(calls) && i < j < |calls|
    requires var q := calls[0].request; Listed(calls[i].after, q, v)
    ensures var q := calls[0].request; Listed(calls[j].before, q, w) && q.rank(v) <= q.rank(w)
    decreases j
  {
    hide Listed, Decided, NoRemoval, SameSubject;
    var q := calls[0].request;
    var u := v;
    if j > i + 1 {
      u := StaysListed(calls, i, j - 1, v);
      u := StillListed(q, calls[j - 1].before, calls[j - 1].after, u);
    }
    w := StillListed(q, calls[j - 1].after, calls[j].before, u);
  }

  lemma StillListed(q: Request, a: Repository, b: Repository, v: Version) returns (w: Version)
    requires NoRemoval(q, a, b) && Listed(a, q, v)
    ensures Listed(b, q, w) && q.rank(v) <= q.rank(w)
  {
    w :| Listed(b, q, w) && q.rank(v) <= q.rank(w);
  }

  /** With no removals, the versions that one package's history inserts strictly increase: a
      later insertion is newer than every version an earlier call left listed, also when that
      call then failed its proof. */
  lemma InsertedVersionsIncrease(calls: seq<Call>, i: nat, j: nat)
    requires History(calls) && i < j < |calls| && calls[j].inserted
    requires var q := calls[i].request; Listed(calls[i].after, q, q.source.version)
    ensures var rank := calls[0].request.rank;
            rank(calls[i].request.source.version) < rank(calls[j].request.source.version)
  {
    hide Listed, Decided;
    var a, b := calls[i], calls[j];
    var v := a.request.source.version;
    SameListing(a.after, calls[0].request, a.request, v);
    var w := StaysListed(calls, i, j, v);
    SameListing(b.before, calls[0].request, b.request, w);
    InsertsOnlyStrictlyNewer(b.before, b.request, b.attempt, b.inserted, b.after, w);
  }

  /** In particular after every success, which leaves its version listed. */
  lemma PublishedVersionsIncrease(calls: seq<Call>, i: nat, j: nat)
    requires History(calls) && i < j < |calls| && calls[i].attempt.Succeeded? && calls[j].inserted
    ensures var rank := calls[0].request.rank;
            rank(calls[i].request.source.version) < rank(calls[j].request.source.version)
  {
    hide Listed, Decided;
    SuccessIsProof(calls[i].before, calls[i].request, calls[i].attempt, calls[i].inserted, calls[i].after);
    InsertedVersionsIncrease(calls, i, j);
  }
}
