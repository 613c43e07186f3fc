/**
 * The catalog writer: one transaction that deletes a hash's catalog table by table, inserts the
 * new one row by row, remembering row ids in maps, and closes the run in `hash_config` and
 * `room`. Any statement may fail, and a refused or failed statement rolls the transaction back;
 * only a COMMIT may land without being answered.
 */
module CatalogDb {
  import opened Wrappers
  import opened DirectCatalog
  import opened CatalogTables
  import RoomDb

  ghost predicate SameRows<R>(t: Table<R>, u: Table<R>) {
    t.rows == u.rows && t.nextId <= u.nextId
  }

  /** The rows of `a`; a serial key handed out by an aborted transaction is not handed out again. */
  function RolledBack<R>(a: Table<R>, b: Table<R>): Table<R> {
    Table(a.rows, b.nextId)
  }

  function RolledBackSection(a: Section, b: Section): Section {
    Section(RolledBack(a.categories, b.categories), RolledBack(a.streams, b.streams))
  }

  function RolledBackDb(a: Db, b: Db): Db {
    Db(RolledBackSection(a.live, b.live), RolledBackSection(a.movie, b.movie),
       RolledBackSection(a.series, b.series), RolledBack(a.episodes, b.episodes))
  }

  ghost predicate GrownSection(a: Section, b: Section) {
    a.categories.nextId <= b.categories.nextId && a.streams.nextId <= b.streams.nextId
  }

  ghost predicate Grown(a: Db, b: Db) {
    && GrownSection(a.live, b.live) && GrownSection(a.movie, b.movie) && GrownSection(a.series, b.series)
    && a.episodes.nextId <= b.episodes.nextId
  }

  ghost predicate NoCategories(catalog: Catalog) {
    catalog.liveCategories == [] && catalog.movieCategories == [] && catalog.seriesCategories == []
  }

  /** UNIQUE (series_id, season, episode). */
  ghost predicate FitsIn(t: Table<EpisodeRow>, row: EpisodeRow) {
    forall id :: id in t.rows ==> !SameEpisode(t.rows[id], row)
  }

  /** No stream refers to a category of the hash. */
  ghost predicate Unreferenced(s: Section, hash: string) {
    forall id :: id in s.streams.rows && s.streams.rows[id].categoryInternalId in s.categories.rows ==>
      s.categories.rows[s.streams.rows[id].categoryInternalId].hash != hash
  }

  ghost predicate CategoriesFree(db: Db, hash: string) {
    Unreferenced(db.live, hash) && Unreferenced(db.movie, hash) && Unreferenced(db.series, hash)
  }

  function StreamsPurged(db: Db, hash: string): Db {
    var live, movie, series := WithoutHash(db.live, hash), WithoutHash(db.movie, hash), WithoutHash(db.series, hash);
    Db(Section(db.live.categories, live.streams), Section(db.movie.categories, movie.streams),
       Section(db.series.categories, series.streams), WithoutOrphans(db.episodes, series))
  }

  function CategoriesPurged(db: Db, hash: string): Db {
    Db(Section(WithoutHash(db.live, hash).categories, db.live.streams),
       Section(WithoutHash(db.movie, hash).categories, db.movie.streams),
       Section(WithoutHash(db.series, hash).categories, db.series.streams), db.episodes)
  }

  lemma StreamsPurgedFreesCategories(db: Db, hash: string)
    requires DbOk(db)
    ensures CategoriesFree(StreamsPurged(db, hash), hash)
  {
    StreamsGoneFree(db.live, hash);
    StreamsGoneFree(db.movie, hash);
    StreamsGoneFree(db.series, hash);
  }

  lemma StreamsGoneFree(s: Section, hash: string)
    requires SectionOk(s)
    ensures Unreferenced(Section(s.categories, WithoutHash(s, hash).streams), hash)
  {
    var streams := WithoutHash(s, hash).streams;
    forall id | id in streams.rows && streams.rows[id].categoryInternalId in s.categories.rows
      ensures s.categories.rows[streams.rows[id].categoryInternalId].hash != hash
    {
      assert RefersInside(s, s.streams.rows[id]);
    }
  }

  /** Every row id in the map is a category that streams of the hash may refer to. */
  ghost predicate CanRefer(db: Db, kind: Kind, ids: map<int, nat>, hashKnown: bool) {
    forall k :: k in ids ==> hashKnown && ids[k] in CategoryTable(db, kind).rows
  }

  lemma CategoryRowsStep(hash: string, cats: seq<Category>, i: nat, t: Table<CategoryRow>)
    requires i < |cats|
    ensures CategoryRows(hash, cats[..i + 1]) == CategoryRows(hash, cats[..i])
              + [CategoryRow(cats[i].providerCategoryId, hash, cats[i].name)]
    ensures InsertAll(t, CategoryRows(hash, cats[..i + 1]))
         == Insert(InsertAll(t, CategoryRows(hash, cats[..i])), CategoryRow(cats[i].providerCategoryId, hash, cats[i].name))
    ensures InternalIds(cats[..i + 1], t.nextId) == InternalIds(cats[..i], t.nextId)[cats[i].providerCategoryId := t.nextId + i]
    ensures InsertAll(t, CategoryRows(hash, cats[..i])).nextId == t.nextId + i
  {
    assert cats[..i + 1][..i] == cats[..i];
    var rows, row := CategoryRows(hash, cats[..i]), CategoryRow(cats[i].providerCategoryId, hash, cats[i].name);
    assert CategoryRows(hash, cats[..i + 1]) == rows + [row];
    InsertAllSnoc(t, rows, row);
    InsertAllNextId(t, rows);
  }

  lemma NothingInserted(db: Db, kind: Kind, hash: string, cats: seq<Category>)
    ensures Grown(db, db)
    ensures db == WithCategories(db, kind, InsertAll(CategoryTable(db, kind), CategoryRows(hash, cats[..0])))
    ensures InternalIds(cats[..0], CategoryTable(db, kind).nextId) == map[]
  {
    assert CategoryRows(hash, cats[..0]) == [];
  }

  lemma StreamRowsStep(hash: string, streams: seq<Stream>, i: nat, ids: map<int, nat>)
    requires i < |streams|
    ensures var rows := StreamRows(hash, streams[..i], ids);
            StreamRows(hash, streams[..i + 1], ids) ==
              if streams[i].providerCategoryId in ids
              then rows + [StreamRow(hash, streams[i], ids[streams[i].providerCategoryId])] else rows
  {
    assert streams[..i + 1][..i] == streams[..i];
  }

  /** Inserting rows one after the other meets no two alike. */
  ghost predicate EpisodesFit(t: Table<EpisodeRow>, rows: seq<EpisodeRow>) {
    && (forall id, i :: id in t.rows && 0 <= i < |rows| ==> !SameEpisode(t.rows[id], rows[i]))
    && (forall i, j :: 0 <= i < j < |rows| ==> !SameEpisode(rows[i], rows[j]))
  }

  function CategoryTable(db: Db, kind: Kind): Table<CategoryRow> {
    SectionOf(db, kind).categories
  }

  function StreamTable(db: Db, kind: Kind): Table<StreamRow> {
    SectionOf(db, kind).streams
  }

  function WithCategories(db: Db, kind: Kind, t: Table<CategoryRow>): Db {
    WithSection(db, kind, SectionOf(db, kind).(categories := t))
  }

  function WithStreams(db: Db, kind: Kind, t: Table<StreamRow>): Db {
    WithSection(db, kind, SectionOf(db, kind).(streams := t))
  }

  lemma {:induction false} InternalIdsRange(cats: seq<Category>, base: nat, k: int)
    requires k in InternalIds(cats, base)
    ensures base <= InternalIds(cats, base)[k] < base + |cats|
  {
    if k != cats[|cats| - 1].providerCategoryId {
      InternalIdsRange(cats[..|cats| - 1], base, k);
    }
  }

  lemma InternalIdsStored(t: Table<CategoryRow>, hash: string, cats: seq<Category>)
    requires WellFormed(t)
    ensures cats == [] ==> InternalIds(cats, t.nextId) == map[]
    ensures forall k :: k in InternalIds(cats, t.nextId) ==>
              InternalIds(cats, t.nextId)[k] in InsertAll(t, CategoryRows(hash, cats)).rows
  {
    forall k | k in InternalIds(cats, t.nextId)
      ensures InternalIds(cats, t.nextId)[k] in InsertAll(t, CategoryRows(hash, cats)).rows
    {
      InternalIdsRange(cats, t.nextId, k);
      InsertAllIds(t, CategoryRows(hash, cats), InternalIds(cats, t.nextId)[k]);
    }
  }

  lemma {:induction false} StreamRowsLength(h: string, g: string, streams: seq<Stream>, ids: map<int, nat>)
    ensures |StreamRows(h, streams, ids)| == |StreamRows(g, streams, ids)|
  {
    if streams == [] {
    } else {
      StreamRowsLength(h, g, streams[..|streams| - 1], ids);
    }
  }

  lemma SeriesIdsStep(hash: string, series: seq<SeriesStream>, i: nat, ids: map<int, nat>, base: nat)
    requires i < |series|
    ensures var s := series[i].stream;
            var rows := StreamRows(hash, PlainStreams(series[..i]), ids);
            StreamRows(hash, PlainStreams(series[..i + 1]), ids) ==
              if s.providerCategoryId in ids then rows + [StreamRow(hash, s, ids[s.providerCategoryId])] else rows
    ensures SeriesIds(series[..i + 1], ids, base) ==
              if series[i].stream.providerCategoryId in ids
              then SeriesIds(series[..i], ids, base)[series[i].groupKey :=
                     base + |StreamRows(hash, PlainStreams(series[..i]), ids)|]
              else SeriesIds(series[..i], ids, base)
  {
    assert series[..i + 1][..i] == series[..i];
    assert PlainStreams(series[..i + 1]) == PlainStreams(series[..i]) + [series[i].stream];
    assert PlainStreams(series[..i + 1])[..i] == PlainStreams(series[..i]);
    StreamRowsLength(hash, "", PlainStreams(series[..i]), ids);
  }

  lemma {:induction false} SeriesIdsRange(hash: string, series: seq<SeriesStream>, ids: map<int, nat>, base: nat, k: string)
    requires k in SeriesIds(series, ids, base)
    ensures base <= SeriesIds(series, ids, base)[k] < base + |StreamRows(hash, PlainStreams(series), ids)|
  {
    var n := |series| - 1;
    assert series[..n + 1] == series;
    SeriesIdsStep(hash, series, n, ids, base);
    if k in SeriesIds(series[..n], ids, base) {
      SeriesIdsRange(hash, series[..n], ids, base, k);
    }
  }

  ghost predicate SeriesKnown(db: Db, seriesIds: map<string, nat>) {
    forall k :: k in seriesIds ==> seriesIds[k] in db.series.streams.rows
  }

  lemma SeriesIdsStored(db: Db, hash: string, cats: seq<Category>, series: seq<SeriesStream>)
    requires WellFormed(db.series.streams)
    ensures SeriesKnown(WithStreams(db, Series, Filled(db.series, hash, cats, PlainStreams(series)).streams),
                        SeriesIds(series, InternalIds(cats, db.series.categories.nextId), db.series.streams.nextId))
  {
    var ids, base := InternalIds(cats, db.series.categories.nextId), db.series.streams.nextId;
    var rows := StreamRows(hash, PlainStreams(series), ids);
    forall k | k in SeriesIds(series, ids, base)
      ensures SeriesIds(series, ids, base)[k] in InsertAll(db.series.streams, rows).rows
    {
      SeriesIdsRange(hash, series, ids, base, k);
      InsertAllIds(db.series.streams, rows, SeriesIds(series, ids, base)[k]);
    }
  }

  lemma EpisodeRowsStep(episodes: seq<Episode>, i: nat, seriesIds: map<string, nat>)
    requires i < |episodes|
    ensures var e := episodes[i];
            var rows := EpisodeRows(episodes[..i], seriesIds);
            EpisodeRows(episodes[..i + 1], seriesIds) ==
              if e.groupKey in seriesIds
              then rows + [EpisodeRow(seriesIds[e.groupKey], e.season, e.episode, e.title, e.thumbnail, e.url)] else rows
  {
    assert episodes[..i + 1][..i] == episodes[..i];
  }

  lemma {:induction false} EpisodeRowsPrefix(episodes: seq<Episode>, i: nat, seriesIds: map<string, nat>)
    requires i <= |episodes|
    ensures EpisodeRows(episodes[..i], seriesIds) <= EpisodeRows(episodes, seriesIds)
    decreases |episodes| - i
  {
    if i == |episodes| {
      assert episodes[..i] == episodes;
    } else {
      EpisodeRowsPrefix(episodes, i + 1, seriesIds);
      EpisodeRowsStep(episodes, i, seriesIds);
    }
  }

  lemma NextFits(t: Table<EpisodeRow>, before: seq<EpisodeRow>, row: EpisodeRow, all: seq<EpisodeRow>)
    requires WellFormed(t) && EpisodesFit(t, all) && before + [row] <= all
    ensures FitsIn(InsertAll(t, before), row)
  {
    var u := InsertAll(t, before);
    assert all[|before|] == row;
    forall id | id in u.rows
      ensures !SameEpisode(u.rows[id], row)
    {
      InsertAllIds(t, before, id);
      if id >= t.nextId {
        assert all[id - t.nextId] == before[id - t.nextId];
      }
    }
  }

  function SeriesFilled(db: Db, hash: string, cats: seq<Category>, series: seq<SeriesStream>, episodes: seq<Episode>): Db {
    var ids := InternalIds(cats, db.series.categories.nextId);
    db.(series := Filled(db.series, hash, cats, PlainStreams(series)),
        episodes := InsertAll(db.episodes, EpisodeRows(episodes, SeriesIds(series, ids, db.series.streams.nextId))))
  }

  ghost predicate SeriesFits(db: Db, cats: seq<Category>, series: seq<SeriesStream>, episodes: seq<Episode>) {
    && WellFormed(db.series.categories) && WellFormed(db.series.streams) && WellFormed(db.episodes)
    && EpisodesFit(db.episodes, EpisodeRows(episodes,
         SeriesIds(series, InternalIds(cats, db.series.categories.nextId), db.series.streams.nextId)))
  }

  ghost predicate SameSection(a: Section, b: Section) {
    SameRows(a.categories, b.categories) && SameRows(a.streams, b.streams)
  }

  ghost predicate SameCatalog(a: Db, b: Db) {
    && SameSection(a.live, b.live) && SameSection(a.movie, b.movie) && SameSection(a.series, b.series)
    && SameRows(a.episodes, b.episodes)
  }

  /** No two episodes agree on series, season and episode number. */
  ghost predicate EpisodesDiffer(episodes: seq<Episode>) {
    forall i, j :: 0 <= i < j < |episodes| ==> !SameNumber(episodes[i], episodes[j])
  }

  predicate SameNumber(a: Episode, b: Episode) {
    a.groupKey == b.groupKey && a.season == b.season && a.episode == b.episode
  }

  lemma {:induction false} SeriesIdsInjective(series: seq<SeriesStream>, ids: map<int, nat>, base: nat, k: string, l: string)
    requires k in SeriesIds(series, ids, base) && l in SeriesIds(series, ids, base) && k != l
    ensures SeriesIds(series, ids, base)[k] != SeriesIds(series, ids, base)[l]
  {
    var n := |series| - 1;
    var rest := series[..n];
    assert series[..n + 1] == series;
    SeriesIdsStep("", series, n, ids, base);
    if k in SeriesIds(rest, ids, base) {
      SeriesIdsRange("", rest, ids, base, k);
    }
    if l in SeriesIds(rest, ids, base) {
      SeriesIdsRange("", rest, ids, base, l);
    }
    if k in SeriesIds(rest, ids, base) && l in SeriesIds(rest, ids, base) {
      SeriesIdsInjective(rest, ids, base, k, l);
    }
  }

  function RowOf(e: Episode, seriesIds: map<string, nat>): EpisodeRow
    requires e.groupKey in seriesIds
  {
    EpisodeRow(seriesIds[e.groupKey], e.season, e.episode, e.title, e.thumbnail, e.url)
  }

  lemma {:induction false} RowComesFrom(episodes: seq<Episode>, seriesIds: map<string, nat>, i: nat) returns (j: nat)
    requires i < |EpisodeRows(episodes, seriesIds)|
    ensures j < |episodes| && episodes[j].groupKey in seriesIds
    ensures EpisodeRows(episodes, seriesIds)[i] == RowOf(episodes[j], seriesIds)
    ensures EpisodeRows(episodes[..j], seriesIds) == EpisodeRows(episodes, seriesIds)[..i]
  {
    var n := |episodes| - 1;
    assert episodes[..n + 1] == episodes;
    EpisodeRowsStep(episodes, n, seriesIds);
    if i < |EpisodeRows(episodes[..n], seriesIds)| {
      j := RowComesFrom(episodes[..n], seriesIds, i);
      assert episodes[..n][..j] == episodes[..j];
    } else {
      j := n;
    }
  }

  lemma RowsDiffer(series: seq<SeriesStream>, ids: map<int, nat>, base: nat, episodes: seq<Episode>, i: nat, j: nat)
    requires EpisodesDiffer(episodes)
    requires i < j < |EpisodeRows(episodes, SeriesIds(series, ids, base))|
    ensures var rows := EpisodeRows(episodes, SeriesIds(series, ids, base)); !SameEpisode(rows[i], rows[j])
  {
    var seriesIds := SeriesIds(series, ids, base);
    var l := RowComesFrom(episodes, seriesIds, j);
    var k := RowComesFrom(episodes[..l], seriesIds, i);
    assert EpisodeRows(episodes, seriesIds)[i] == EpisodeRows(episodes[..l], seriesIds)[i];
    assert !SameNumber(episodes[k], episodes[l]);
    if episodes[k].groupKey != episodes[l].groupKey {
      SeriesIdsInjective(series, ids, base, episodes[k].groupKey, episodes[l].groupKey);
    }
  }

  /** Old episodes belong to old series, and new ones differ among themselves. */
  lemma NewEpisodesFit(t: Table<EpisodeRow>, base: nat, series: seq<SeriesStream>, ids: map<int, nat>, episodes: seq<Episode>)
    requires EpisodesDiffer(episodes)
    requires forall id :: id in t.rows ==> t.rows[id].seriesId < base
    ensures EpisodesFit(t, EpisodeRows(episodes, SeriesIds(series, ids, base)))
  {
    var seriesIds := SeriesIds(series, ids, base);
    var rows := EpisodeRows(episodes, seriesIds);
    forall i | 0 <= i < |rows|
      ensures rows[i].seriesId >= base
    {
      var j := RowComesFrom(episodes, seriesIds, i);
      SeriesIdsRange("", series, ids, base, episodes[j].groupKey);
    }
    forall i, j | 0 <= i < j < |rows|
      ensures !SameEpisode(rows[i], rows[j])
    {
      RowsDiffer(series, ids, base, episodes, i, j);
    }
  }

  lemma PurgedKeepsIds(db: Db, hash: string)
    ensures Purged(db, hash).series.categories.nextId == db.series.categories.nextId
    ensures Purged(db, hash).series.streams.nextId == db.series.streams.nextId
  {
  }

  lemma PurgedFits(db: Db, hash: string, catalog: Catalog)
    requires DbOk(db) && EpisodesDiffer(catalog.seriesEpisodes)
    ensures var p := Purged(db, hash);
            && WellFormed(p.live.categories) && WellFormed(p.movie.categories)
            && SeriesFits(p, catalog.seriesCategories, catalog.seriesStreams, catalog.seriesEpisodes)
  {
    hide EpisodesDiffer, EpisodeRows, SeriesIds, InternalIds, EpisodesFit;
    var p := Purged(db, hash);
    NewEpisodesFit(p.episodes, db.series.streams.nextId, catalog.seriesStreams,
                   InternalIds(catalog.seriesCategories, db.series.categories.nextId), catalog.seriesEpisodes);
  }

  lemma GrownTwice(a: Db, b: Db, c: Db)
    requires Grown(a, b) && Grown(b, c)
    ensures Grown(a, c)
  {
  }

  lemma CategoriesTwice(db: Db, kind: Kind, t: Table<CategoryRow>, u: Table<CategoryRow>)
    ensures CategoryTable(WithCategories(db, kind, t), kind) == t
    ensures WithCategories(WithCategories(db, kind, t), kind, u) == WithCategories(db, kind, u)
  {
  }

  lemma StreamsTwice(db: Db, kind: Kind, t: Table<StreamRow>, u: Table<StreamRow>)
    ensures StreamTable(WithStreams(db, kind, t), kind) == t
    ensures CategoryTable(WithStreams(db, kind, t), kind) == CategoryTable(db, kind)
    ensures WithStreams(WithStreams(db, kind, t), kind, u) == WithStreams(db, kind, u)
  {
  }

  lemma MayRefer(db: Db, kind: Kind, ids: map<int, nat>, hashKnown: bool, k: int)
    requires CanRefer(db, kind, ids, hashKnown) && k in ids
    ensures hashKnown && ids[k] in CategoryTable(db, kind).rows
  {
  }

  lemma NoSeriesYet(db: Db, hash: string, series: seq<SeriesStream>, ids: map<int, nat>)
    ensures Grown(db, db) && SeriesIds(series[..0], ids, StreamTable(db, Series).nextId) == map[]
    ensures db == WithStreams(db, Series,
                              InsertAll(StreamTable(db, Series), StreamRows(hash, PlainStreams(series[..0]), ids)))
  {
    assert series[..0] == [] && PlainStreams([]) == [];
  }

  /** What becomes of the rooms: the run's room is idle again and completed, if it is still there. */
  ghost predicate RunIsClosed(before: map<nat, RoomDb.Room>, roomId: nat, after: map<nat, RoomDb.Room>) {
    if roomId in before then
      after == before[roomId := before[roomId].(
                 status := Some(RoomDb.Idle), closedReason := None, lastOutcome := Some(RoomDb.Completed))]
    else after == before
  }

  class CatalogClient {
    var db: Db
    /** The hashes of `hash_config`. */
    var known: set<string>
    /** `hash_config.last_synced_at`, where it is set. */
    var lastSyncedAt: map<string, string>
    var rooms: map<nat, RoomDb.Room>
    /** How many statements succeed before the connection is lost; `None` when it is not. */
    var statementsLeft: Option<nat>
    /** Whether a COMMIT lands whose answer the lost connection does not bring. */
    const landsUnanswered: bool

    constructor (initial: Db, hashes: set<string>, synced: map<string, string>, rooms: map<nat, RoomDb.Room>,
                 left: Option<nat>, landsUnanswered: bool)
      ensures db == initial && known == hashes && lastSyncedAt == synced && this.rooms == rooms
      ensures statementsLeft == left && this.landsUnanswered == landsUnanswered
    {
      db, known, lastSyncedAt, this.rooms := initial, hashes, synced, rooms;
      statementsLeft, this.landsUnanswered := left, landsUnanswered;
    }

    method Statement() returns (ok: bool)
      modifies `statementsLeft
      ensures old(statementsLeft).None? ==> ok && statementsLeft.None?
      ensures old(statementsLeft) == Some(0) ==> !ok
    {
      match statementsLeft
      case None => ok := true;
      case Some(n) =>
        ok := n > 0;
        if ok {
          statementsLeft := Some(n - 1);
        }
    }

    method InsertCategoryRow(kind: Kind, row: CategoryRow) returns (id: Option<nat>)
      modifies `db, `statementsLeft
      ensures Grown(old(db), db)
      ensures var t := CategoryTable(old(db), kind);
              id.Some? ==> id.value == t.nextId && db == WithCategories(old(db), kind, Insert(t, row))
      ensures old(statementsLeft).None? ==> statementsLeft.None? && (id.Some? <==> row.hash in known)
    {
      var ok := Statement();
      if !ok {
        return None;
      }
      var t := CategoryTable(db, kind);
      if row.hash !in known {
        db := WithCategories(db, kind, t.(nextId := t.nextId + 1));
        return None;
      }
      db := WithCategories(db, kind, Insert(t, row));
      return Some(t.nextId);
    }

    method InsertStreamRow(kind: Kind, row: StreamRow) returns (id: Option<nat>)
      modifies `db, `statementsLeft
      ensures Grown(old(db), db)
      ensures var t := StreamTable(old(db), kind);
              id.Some? ==> id.value == t.nextId && db == WithStreams(old(db), kind, Insert(t, row))
      ensures old(statementsLeft).None? ==> statementsLeft.None?
      ensures old(statementsLeft).None? ==>
                (id.Some? <==> row.hash in known && row.categoryInternalId in CategoryTable(old(db), kind).rows)
    {
      var ok := Statement();
      if !ok {
        return None;
      }
      var t := StreamTable(db, kind);
      if row.hash !in known || row.categoryInternalId !in CategoryTable(db, kind).rows {
        db := WithStreams(db, kind, t.(nextId := t.nextId + 1));
        return None;
      }
      db := WithStreams(db, kind, Insert(t, row));
      return Some(t.nextId);
    }

    method InsertEpisodeRow(row: EpisodeRow) returns (ok: bool)
      modifies `db, `statementsLeft
      ensures Grown(old(db), db)
      ensures ok ==> db == old(db).(episodes := Insert(old(db).episodes, row))
      ensures old(statementsLeft).None? ==> statementsLeft.None?
      ensures old(statementsLeft).None? ==>
                (ok <==> row.seriesId in old(db).series.streams.rows && FitsIn(old(db).episodes, row))
    {
      ok := Statement();
      if !ok {
        return;
      }
      var t := db.episodes;
      if row.seriesId !in db.series.streams.rows || exists id | id in t.rows :: SameEpisode(t.rows[id], row) {
        db := db.(episodes := t.(nextId := t.nextId + 1));
        return false;
      }
      db := db.(episodes := Insert(t, row));
    }

    method DeleteStreams(kind: Kind, hash: string) returns (ok: bool)
      modifies `db, `statementsLeft
      ensures Grown(old(db), db)
      ensures var s := SectionOf(old(db), kind);
              ok ==> db == if kind == Series
                           then WithSection(old(db), kind, Section(s.categories, WithoutHash(s, hash).streams))
                                .(episodes := WithoutOrphans(old(db).episodes, WithoutHash(s, hash)))
                           else WithSection(old(db), kind, Section(s.categories, WithoutHash(s, hash).streams))
      ensures old(statementsLeft).None? ==> ok && statementsLeft.None?
    {
      ok := Statement();
      if !ok {
        return;
      }
      var s := SectionOf(db, kind);
      var left := Section(s.categories, WithoutHash(s, hash).streams);
      var episodes := if kind == Series then WithoutOrphans(db.episodes, left) else db.episodes;
      db := WithSection(db, kind, left).(episodes := episodes);
    }

    /** Refused when a stream that stays refers to a category that goes. */
    method DeleteCategories(kind: Kind, hash: string) returns (ok: bool)
      modifies `db, `statementsLeft
      ensures Grown(old(db), db)
      ensures ok ==> db == WithCategories(old(db), kind, WithoutHash(SectionOf(old(db), kind), hash).categories)
      ensures old(statementsLeft).None? ==> statementsLeft.None?
      ensures old(statementsLeft).None? && Unreferenced(SectionOf(old(db), kind), hash) ==> ok
    {
      ok := Statement();
      if !ok {
        return;
      }
      var s := SectionOf(db, kind);
      var left := WithoutHash(s, hash).categories;
      ok := !exists id | id in s.streams.rows ::
        s.streams.rows[id].categoryInternalId in s.categories.rows && s.streams.rows[id].categoryInternalId !in left.rows;
      if ok {
        db := WithCategories(db, kind, left);
      }
    }

    method PurgeStreams(hash: string) returns (ok: bool)
      modifies `db, `statementsLeft
      ensures Grown(old(db), db)
      ensures ok ==> db == StreamsPurged(old(db), hash)
      ensures old(statementsLeft).None? ==> ok && statementsLeft.None?
    {
      ok := DeleteStreams(Live, hash);
      if ok {
        ok := DeleteStreams(Movie, hash);
      }
      if ok {
        ok := DeleteStreams(Series, hash);
      }
    }

    method PurgeCategories(hash: string) returns (ok: bool)
      modifies `db, `statementsLeft
      ensures Grown(old(db), db)
      ensures ok ==> db == CategoriesPurged(old(db), hash)
      ensures old(statementsLeft).None? ==> statementsLeft.None?
      ensures old(statementsLeft).None? && CategoriesFree(old(db), hash) ==> ok
    {
      ok := DeleteCategories(Live, hash);
      if ok {
        ok := DeleteCategories(Movie, hash);
      }
      if ok {
        ok := DeleteCategories(Series, hash);
      }
    }

    method Purge(hash: string) returns (ok: bool)
      modifies `db, `statementsLeft
      ensures Grown(old(db), db)
      ensures ok ==> db == Purged(old(db), hash)
      ensures old(statementsLeft).None? ==> statementsLeft.None?
      ensures old(statementsLeft).None? && DbOk(old(db)) ==> ok
    {
      if DbOk(db) {
        StreamsPurgedFreesCategories(db, hash);
      }
      ok := PurgeStreams(hash);
      if ok {
        ok := PurgeCategories(hash);
      }
    }

    /** Inserts a section's categories and maps provider ids to row ids. */
    method InsertCategories(kind: Kind, hash: string, cats: seq<Category>) returns (ids: Option<map<int, nat>>)
      modifies `db, `statementsLeft
      ensures Grown(old(db), db)
      ensures var t := CategoryTable(old(db), kind);
              ids.Some? ==> (ids.value == InternalIds(cats, t.nextId)
                             && db == WithCategories(old(db), kind, InsertAll(t, CategoryRows(hash, cats))))
      ensures old(statementsLeft).None? ==> (statementsLeft.None? && (ids.Some? <==> hash in known || cats == []))
    {
      hide *;
      var byProviderId: map<int, nat> := map[];
      NothingInserted(db, kind, hash, cats);
      for i := 0 to |cats|
        invariant Grown(old(db), db)
        invariant db == WithCategories(old(db), kind, InsertAll(CategoryTable(old(db), kind), CategoryRows(hash, cats[..i])))
        invariant byProviderId == InternalIds(cats[..i], CategoryTable(old(db), kind).nextId)
        invariant old(statementsLeft).None? ==> (statementsLeft.None? && (hash in known || i == 0))
      {
        ghost var before, t := db, CategoryTable(old(db), kind);
        ghost var u := InsertAll(t, CategoryRows(hash, cats[..i]));
        CategoryRowsStep(hash, cats, i, t);
        var id := InsertCategoryRow(kind, CategoryRow(cats[i].providerCategoryId, hash, cats[i].name));
        GrownTwice(old(db), before, db);
        if id.None? {
          return None;
        }
        CategoriesTwice(old(db), kind, u, InsertAll(t, CategoryRows(hash, cats[..i + 1])));
        byProviderId := byProviderId[cats[i].providerCategoryId := id.value];
      }
      assert cats[..|cats|] == cats;
      return Some(byProviderId);
    }

    /** Inserts the streams whose category is known. */
    method InsertStreams(kind: Kind, hash: string, streams: seq<Stream>, ids: map<int, nat>) returns (ok: bool)
      modifies `db, `statementsLeft
      ensures Grown(old(db), db)
      ensures var t := StreamTable(old(db), kind);
              ok ==> db == WithStreams(old(db), kind, InsertAll(t, StreamRows(hash, streams, ids)))
      ensures old(statementsLeft).None? ==> statementsLeft.None?
      ensures old(statementsLeft).None? && CanRefer(old(db), kind, ids, hash in known) ==> ok
    {
      ok := true;
      for i := 0 to |streams|
        invariant ok && Grown(old(db), db)
        invariant db == WithStreams(old(db), kind, InsertAll(StreamTable(old(db), kind), StreamRows(hash, streams[..i], ids)))
        invariant old(statementsLeft).None? ==> statementsLeft.None?
      {
        hide *;
        ghost var before, t := db, StreamTable(old(db), kind);
        ghost var rows := StreamRows(hash, streams[..i], ids);
        StreamRowsStep(hash, streams, i, ids);
        if streams[i].providerCategoryId !in ids {
          continue;
        }
        var row := StreamRow(hash, streams[i], ids[streams[i].providerCategoryId]);
        InsertAllSnoc(t, rows, row);
        StreamsTwice(old(db), kind, InsertAll(t, rows), InsertAll(t, rows + [row]));
        if CanRefer(old(db), kind, ids, hash in known) {
          MayRefer(old(db), kind, ids, hash in known, streams[i].providerCategoryId);
        }
        var id := InsertStreamRow(kind, row);
        GrownTwice(old(db), before, db);
        if id.None? {
          return false;
        }
      }
      assert streams[..|streams|] == streams;
    }

    /** The live and the movie section. */
    method InsertSection(kind: Kind, hash: string, cats: seq<Category>, streams: seq<Stream>) returns (ok: bool)
      modifies `db, `statementsLeft
      ensures Grown(old(db), db)
      ensures ok ==> db == WithSection(old(db), kind, Filled(SectionOf(old(db), kind), hash, cats, streams))
      ensures old(statementsLeft).None? ==> statementsLeft.None?
      ensures old(statementsLeft).None? && WellFormed(CategoryTable(old(db), kind)) ==> (ok <==> hash in known || cats == [])
    {
      hide InsertAll, StreamRows, CategoryRows, InternalIds;
      if WellFormed(CategoryTable(db, kind)) {
        InternalIdsStored(CategoryTable(db, kind), hash, cats);
      }
      var ids := InsertCategories(kind, hash, cats);
      if ids.None? {
        return false;
      }
      ok := InsertStreams(kind, hash, streams, ids.value);
    }

    /** Inserts the series whose category is known and maps their group keys to row ids. */
    method InsertSeriesStreams(hash: string, series: seq<SeriesStream>, ids: map<int, nat>)
        returns (byGroupKey: Option<map<string, nat>>)
      modifies `db, `statementsLeft
      ensures Grown(old(db), db)
      ensures var t := StreamTable(old(db), Series);
              byGroupKey.Some? ==>
                (byGroupKey.value == SeriesIds(series, ids, t.nextId)
                 && db == WithStreams(old(db), Series, InsertAll(t, StreamRows(hash, PlainStreams(series), ids))))
      ensures old(statementsLeft).None? ==> statementsLeft.None?
      ensures old(statementsLeft).None? && CanRefer(old(db), Series, ids, hash in known) ==> byGroupKey.Some?
    {
      hide *;
      var seriesIds: map<string, nat> := map[];
      ghost var t := StreamTable(db, Series);
      NoSeriesYet(db, hash, series, ids);
      for i := 0 to |series|
        invariant Grown(old(db), db)
        invariant seriesIds == SeriesIds(series[..i], ids, t.nextId)
        invariant db == WithStreams(old(db), Series, InsertAll(t, StreamRows(hash, PlainStreams(series[..i]), ids)))
        invariant old(statementsLeft).None? ==> statementsLeft.None?
      {
        ghost var before := db;
        ghost var rows := StreamRows(hash, PlainStreams(series[..i]), ids);
        var s := series[i].stream;
        SeriesIdsStep(hash, series, i, ids, t.nextId);
        if s.providerCategoryId !in ids {
          continue;
        }
        var row := StreamRow(hash, s, ids[s.providerCategoryId]);
        InsertAllSnoc(t, rows, row);
        InsertAllNextId(t, rows);
        StreamsTwice(old(db), Series, InsertAll(t, rows), InsertAll(t, rows + [row]));
        if CanRefer(old(db), Series, ids, hash in known) {
          MayRefer(old(db), Series, ids, hash in known, s.providerCategoryId);
        }
        var id := InsertStreamRow(Series, row);
        GrownTwice(old(db), before, db);
        if id.None? {
          return None;
        }
        seriesIds := seriesIds[series[i].groupKey := id.value];
      }
      assert series[..|series|] == series;
      return Some(seriesIds);
    }

    /** Inserts the episodes whose series is known. */
    method InsertEpisodes(episodes: seq<Episode>, seriesIds: map<string, nat>) returns (ok: bool)
      modifies `db, `statementsLeft
      ensures Grown(old(db), db)
      ensures ok ==> db == old(db).(episodes := InsertAll(old(db).episodes, EpisodeRows(episodes, seriesIds)))
      ensures old(statementsLeft).None? ==> statementsLeft.None?
      ensures (&& old(statementsLeft).None? && SeriesKnown(old(db), seriesIds) && WellFormed(old(db).episodes)
               && EpisodesFit(old(db).episodes, EpisodeRows(episodes, seriesIds))) ==> ok
    {
      ok := true;
      ghost var t := db.episodes;
      for i := 0 to |episodes|
        invariant ok && Grown(old(db), db)
        invariant db == old(db).(episodes := InsertAll(t, EpisodeRows(episodes[..i], seriesIds)))
        invariant old(statementsLeft).None? ==> statementsLeft.None?
      {
        hide EpisodeRows, EpisodesFit, FitsIn;
        var e := episodes[i];
        EpisodeRowsStep(episodes, i, seriesIds);
        if e.groupKey !in seriesIds {
          continue;
        }
        var row := EpisodeRow(seriesIds[e.groupKey], e.season, e.episode, e.title, e.thumbnail, e.url);
        InsertAllSnoc(t, EpisodeRows(episodes[..i], seriesIds), row);
        if WellFormed(t) && EpisodesFit(t, EpisodeRows(episodes, seriesIds)) {
          EpisodeRowsPrefix(episodes, i + 1, seriesIds);
          NextFits(t, EpisodeRows(episodes[..i], seriesIds), row, EpisodeRows(episodes, seriesIds));
        }
        ok := InsertEpisodeRow(row);
        if !ok {
          return;
        }
      }
      assert episodes[..|episodes|] == episodes;
    }

    method InsertSeriesWithEpisodes(hash: string, cats: seq<Category>, series: seq<SeriesStream>, episodes: seq<Episode>)
        returns (ok: bool)
      modifies `db, `statementsLeft
      ensures Grown(old(db), db)
      ensures ok ==> db == SeriesFilled(old(db), hash, cats, series, episodes)
      ensures old(statementsLeft).None? ==> statementsLeft.None?
      ensures old(statementsLeft).None? && SeriesFits(old(db), cats, series, episodes) ==> (ok <==> hash in known || cats == [])
    {
      hide InsertAll, StreamRows, CategoryRows, InternalIds, SeriesIds, EpisodeRows, EpisodesFit;
      if SeriesFits(db, cats, series, episodes) {
        InternalIdsStored(CategoryTable(db, Series), hash, cats);
        SeriesIdsStored(db, hash, cats, series);
      }
      var ids := InsertCategories(Series, hash, cats);
      if ids.None? {
        return false;
      }
      var seriesIds := InsertSeriesStreams(hash, series, ids.value);
      if seriesIds.None? {
        return false;
      }
      ok := InsertEpisodes(episodes, seriesIds.value);
    }

    method RunReplace(hash: string, catalog: Catalog) returns (ok: bool)
      modifies `db, `statementsLeft
      ensures Grown(old(db), db)
      ensures ok ==> db == Replaced(old(db), hash, catalog)
      ensures old(statementsLeft).None? ==> statementsLeft.None?
      ensures old(statementsLeft).None? && DbOk(old(db)) && EpisodesDiffer(catalog.seriesEpisodes) ==>
                (ok <==> hash in known || NoCategories(catalog))
    {
      hide Filled, InternalIds, SeriesIds, EpisodeRows, EpisodesFit, EpisodesDiffer, WithoutHash, WithoutOrphans;
      PurgedKeepsIds(db, hash);
      if DbOk(db) && EpisodesDiffer(catalog.seriesEpisodes) {
        PurgedFits(db, hash, catalog);
      }
      ok := Purge(hash);
      if ok {
        ok := InsertSection(Live, hash, catalog.liveCategories, catalog.liveStreams);
      }
      if ok {
        ok := InsertSection(Movie, hash, catalog.movieCategories, catalog.movieStreams);
      }
      if ok {
        ok := InsertSeriesWithEpisodes(hash, catalog.seriesCategories, catalog.seriesStreams, catalog.seriesEpisodes);
      }
    }

    method UpdateLastSyncedAt(hash: string, time: string) returns (ok: bool)
      modifies `lastSyncedAt, `statementsLeft
      ensures ok ==> lastSyncedAt == if hash in known then old(lastSyncedAt)[hash := time] else old(lastSyncedAt)
      ensures old(statementsLeft).None? ==> ok && statementsLeft.None?
    {
      ok := Statement();
      if ok && hash in known {
        lastSyncedAt := lastSyncedAt[hash := time];
      }
    }

    method UpdateRoomCompleted(roomId: nat) returns (ok: bool)
      modifies `rooms, `statementsLeft
      ensures ok ==> RunIsClosed(old(rooms), roomId, rooms)
      ensures old(statementsLeft).None? ==> ok && statementsLeft.None?
    {
      ok := Statement();
      if ok && roomId in rooms {
        rooms := rooms[roomId := rooms[roomId].(
                   status := Some(RoomDb.Idle), closedReason := None, lastOutcome := Some(RoomDb.Completed))];
      }
    }

    /**
     * The replacement as one transaction. Either it landed, and then the catalog, the sync time
     * and the room say so together, or nothing of it did, whatever statement failed. A success is
     * only reported when it landed; it can land unreported only when the answer to COMMIT is
     * lost. On a connection that holds, nothing but an unknown hash can stop it.
     */
    method ReplaceCatalog(hash: string, catalog: Catalog, roomId: nat, time: string) returns (ok: bool, ghost landed: bool)
      modifies `db, `lastSyncedAt, `rooms, `statementsLeft
      ensures landed ==> db == Replaced(old(db), hash, catalog)
      ensures landed ==> RunIsClosed(old(rooms), roomId, rooms)
      ensures landed ==> lastSyncedAt == if hash in known then old(lastSyncedAt)[hash := time] else old(lastSyncedAt)
      ensures !landed ==> SameCatalog(old(db), db) && rooms == old(rooms) && lastSyncedAt == old(lastSyncedAt)
      ensures ok ==> landed
      ensures landed && !ok ==> landsUnanswered
      ensures old(statementsLeft).None? && DbOk(old(db)) && EpisodesDiffer(catalog.seriesEpisodes) ==>
                (ok <==> hash in known || NoCategories(catalog))
    {
      hide Replaced, DbOk, EpisodesDiffer, NoCategories, RunIsClosed;
      var before, syncedBefore, roomsBefore := db, lastSyncedAt, rooms;
      ok := Statement(); // BEGIN
      if ok {
        ok := RunReplace(hash, catalog);
      }
      if ok {
        ok := UpdateLastSyncedAt(hash, time);
      }
      if ok {
        ok := UpdateRoomCompleted(roomId);
      }
      var sent := ok;
      if ok {
        ok := Statement(); // COMMIT
      }
      var kept := ok || (sent && landsUnanswered);
      landed := kept;
      if !kept {
        db, lastSyncedAt, rooms := RolledBackDb(before, db), syncedBefore, roomsBefore;
      }
    }
  }

  /** What the transaction does to the room is the commit step of the queue's runs. */
  lemma FinalizeClosesRun(tables: RoomDb.Db, roomId: nat)
    ensures RunIsClosed(tables.rooms, roomId, RoomDb.FinalizeRun(tables, roomId).rooms)
    ensures RoomDb.FinalizeRun(tables, roomId) == tables.(rooms := RoomDb.FinalizeRun(tables, roomId).rooms)
  {
  }
}
