/**
 * The catalog tables: rows under serial ids, the statements the catalog writers use, and what
 * filling a section with a formatted catalog leaves behind.
 */
module CatalogTables {
  import opened Wrappers
  import opened DirectCatalog

  // A table with a BIGSERIAL key

  datatype Table<R> = Table(rows: map<nat, R>, nextId: nat)

  ghost predicate WellFormed<R>(t: Table<R>) {
    forall id :: id in t.rows ==> id < t.nextId
  }

  function Insert<R>(t: Table<R>, r: R): Table<R> {
    Table(t.rows[t.nextId := r], t.nextId + 1)
  }

  function InsertAll<R>(t: Table<R>, rs: seq<R>): Table<R> {
    if rs == [] then t else Insert(InsertAll(t, rs[..|rs| - 1]), rs[|rs| - 1])
  }

  /** The rows below id `n` that `keep` holds of, by id. */
  ghost function RowsBelow<R>(t: Table<R>, keep: R -> bool, n: nat): seq<R> {
    if n == 0 then []
    else RowsBelow(t, keep, n - 1) + if n - 1 in t.rows && keep(t.rows[n - 1]) then [t.rows[n - 1]] else []
  }

  /** SELECT ... WHERE keep ORDER BY id. */
  ghost function Rows<R>(t: Table<R>, keep: R -> bool): seq<R> {
    RowsBelow(t, keep, t.nextId)
  }

  lemma {:induction false} InsertAllIds<R>(t: Table<R>, rs: seq<R>, id: nat)
    requires WellFormed(t)
    ensures var u := InsertAll(t, rs);
            && u.nextId == t.nextId + |rs|
            && (id in u.rows <==> id in t.rows || t.nextId <= id < u.nextId)
            && (id in t.rows ==> u.rows[id] == t.rows[id])
            && (t.nextId <= id < u.nextId ==> u.rows[id] == rs[id - t.nextId])
  {
    if rs == [] {
    } else {
      InsertAllIds(t, rs[..|rs| - 1], id);
    }
  }

  lemma InsertAllWellFormed<R>(t: Table<R>, rs: seq<R>)
    requires WellFormed(t)
    ensures WellFormed(InsertAll(t, rs))
  {
    forall id | id in InsertAll(t, rs).rows
      ensures id < InsertAll(t, rs).nextId
    {
      InsertAllIds(t, rs, id);
    }
  }

  lemma {:induction false} InsertAllNextId<R>(t: Table<R>, rs: seq<R>)
    ensures InsertAll(t, rs).nextId == t.nextId + |rs|
  {
    if rs == [] {
    } else {
      InsertAllNextId(t, rs[..|rs| - 1]);
    }
  }

  lemma InsertAllSnoc<R>(t: Table<R>, rs: seq<R>, r: R)
    ensures InsertAll(t, rs + [r]) == Insert(InsertAll(t, rs), r)
  {
    assert (rs + [r])[..|rs|] == rs;
  }

  lemma {:induction false} RowsBelowAgree<R>(t: Table<R>, u: Table<R>, keep: R -> bool, n: nat)
    requires forall id :: id < n ==> (id in t.rows && keep(t.rows[id]) <==> id in u.rows && keep(u.rows[id]))
    requires forall id :: id < n && id in t.rows && keep(t.rows[id]) ==> t.rows[id] == u.rows[id]
    ensures RowsBelow(t, keep, n) == RowsBelow(u, keep, n)
  {
    if n == 0 {
    } else {
      RowsBelowAgree(t, u, keep, n - 1);
    }
  }

  /** Rows inserted last come last, in the order of insertion. */
  lemma {:induction false} RowsAfterInsertAll<R>(t: Table<R>, rs: seq<R>, keep: R -> bool)
    requires WellFormed(t) && forall i :: 0 <= i < |rs| ==> keep(rs[i])
    ensures Rows(InsertAll(t, rs), keep) == Rows(t, keep) + rs
    decreases |rs|
  {
    if rs == [] {
    } else {
      var rest, last := rs[..|rs| - 1], rs[|rs| - 1];
      RowsAfterInsertAll(t, rest, keep);
      var u := InsertAll(t, rest);
      InsertAllWellFormed(t, rest);
      RowsBelowAgree(u, Insert(u, last), keep, u.nextId);
      assert rs == rest + [last];
    }
  }

  lemma {:induction false} NoRows<R>(t: Table<R>, keep: R -> bool, n: nat)
    requires forall id :: id in t.rows ==> !keep(t.rows[id])
    ensures RowsBelow(t, keep, n) == []
  {
    if n == 0 {
    } else {
      NoRows(t, keep, n - 1);
    }
  }

  // The catalog's rows

  datatype CategoryRow = CategoryRow(categoryId: int, hash: string, name: string)

  datatype StreamRow = StreamRow(hash: string, stream: Stream, categoryInternalId: nat)

  datatype EpisodeRow = EpisodeRow(
    seriesId: nat, season: nat, episode: nat, title: string, thumbnail: Option<string>, url: string)

  /** A category table and the stream table that refers to it. */
  datatype Section = Section(categories: Table<CategoryRow>, streams: Table<StreamRow>)

  datatype Db = Db(live: Section, movie: Section, series: Section, episodes: Table<EpisodeRow>)

  function SectionOf(db: Db, kind: Kind): Section {
    match kind
    case Live => db.live
    case Movie => db.movie
    case Series => db.series
  }

  function WithSection(db: Db, kind: Kind, s: Section): Db {
    match kind
    case Live => db.(live := s)
    case Movie => db.(movie := s)
    case Series => db.(series := s)
  }

  // DELETE ... WHERE hash = $1

  function WithoutHash(s: Section, hash: string): Section {
    Section(
      s.categories.(rows := map id | id in s.categories.rows && s.categories.rows[id].hash != hash :: s.categories.rows[id]),
      s.streams.(rows := map id | id in s.streams.rows && s.streams.rows[id].hash != hash :: s.streams.rows[id]))
  }

  /** Episodes follow their series out. */
  function WithoutOrphans(episodes: Table<EpisodeRow>, series: Section): Table<EpisodeRow> {
    episodes.(rows := map id | id in episodes.rows && episodes.rows[id].seriesId in series.streams.rows :: episodes.rows[id])
  }

  function Purged(db: Db, hash: string): Db {
    var series := WithoutHash(db.series, hash);
    Db(WithoutHash(db.live, hash), WithoutHash(db.movie, hash), series, WithoutOrphans(db.episodes, series))
  }

  // A section filled with categories and streams

  function CategoryRows(hash: string, cats: seq<Category>): seq<CategoryRow> {
    seq(|cats|, i requires 0 <= i < |cats| => CategoryRow(cats[i].providerCategoryId, hash, cats[i].name))
  }

  /** Row ids by provider id; a repeated provider id keeps the last. */
  function InternalIds(cats: seq<Category>, base: nat): map<int, nat> {
    if cats == [] then map[]
    else InternalIds(cats[..|cats| - 1], base)[cats[|cats| - 1].providerCategoryId := base + |cats| - 1]
  }

  /** A stream whose category is unknown is passed over. */
  function StreamRows(hash: string, streams: seq<Stream>, ids: map<int, nat>): seq<StreamRow> {
    if streams == [] then []
    else
      var rest, s := StreamRows(hash, streams[..|streams| - 1], ids), streams[|streams| - 1];
      if s.providerCategoryId in ids then rest + [StreamRow(hash, s, ids[s.providerCategoryId])] else rest
  }

  function Filled(s: Section, hash: string, cats: seq<Category>, streams: seq<Stream>): Section {
    Section(
      InsertAll(s.categories, CategoryRows(hash, cats)),
      InsertAll(s.streams, StreamRows(hash, streams, InternalIds(cats, s.categories.nextId))))
  }

  function PlainStreams(series: seq<SeriesStream>): seq<Stream> {
    seq(|series|, i requires 0 <= i < |series| => series[i].stream)
  }

  /** Series row ids by group key. */
  function SeriesIds(series: seq<SeriesStream>, ids: map<int, nat>, base: nat): map<string, nat> {
    if series == [] then map[]
    else
      var rest, s := series[..|series| - 1], series[|series| - 1];
      if s.stream.providerCategoryId in ids
      then SeriesIds(rest, ids, base)[s.groupKey := base + |StreamRows("", PlainStreams(rest), ids)|]
      else SeriesIds(rest, ids, base)
  }

  function EpisodeRows(episodes: seq<Episode>, seriesIds: map<string, nat>): seq<EpisodeRow> {
    if episodes == [] then []
    else
      var rest, e := EpisodeRows(episodes[..|episodes| - 1], seriesIds), episodes[|episodes| - 1];
      if e.groupKey in seriesIds
      then rest + [EpisodeRow(seriesIds[e.groupKey], e.season, e.episode, e.title, e.thumbnail, e.url)]
      else rest
  }

  function SeriesIdsIn(db: Db, catalog: Catalog): map<string, nat> {
    SeriesIds(catalog.seriesStreams, InternalIds(catalog.seriesCategories, db.series.categories.nextId),
              db.series.streams.nextId)
  }

  /** The tables after the whole replacement. */
  function Replaced(db: Db, hash: string, catalog: Catalog): Db {
    var p := Purged(db, hash);
    Db(Filled(p.live, hash, catalog.liveCategories, catalog.liveStreams),
       Filled(p.movie, hash, catalog.movieCategories, catalog.movieStreams),
       Filled(p.series, hash, catalog.seriesCategories, PlainStreams(catalog.seriesStreams)),
       InsertAll(p.episodes, EpisodeRows(catalog.seriesEpisodes, SeriesIdsIn(db, catalog))))
  }

  // The schema's constraints

  ghost predicate SectionOk(s: Section) {
    && WellFormed(s.categories) && WellFormed(s.streams)
    && forall id :: id in s.streams.rows ==> RefersInside(s, s.streams.rows[id])
  }

  /** The foreign key, to a category of the same hash and provider id. */
  predicate RefersInside(s: Section, r: StreamRow) {
    && r.categoryInternalId in s.categories.rows
    && s.categories.rows[r.categoryInternalId].hash == r.hash
    && s.categories.rows[r.categoryInternalId].categoryId == r.stream.providerCategoryId
  }

  ghost predicate EpisodesOk(episodes: Table<EpisodeRow>, series: Section) {
    && WellFormed(episodes)
    && (forall id :: id in episodes.rows ==> episodes.rows[id].seriesId in series.streams.rows)
    && (forall i, j :: i in episodes.rows && j in episodes.rows && SameEpisode(episodes.rows[i], episodes.rows[j]) ==> i == j)
  }

  predicate SameEpisode(a: EpisodeRow, b: EpisodeRow) {
    a.seriesId == b.seriesId && a.season == b.season && a.episode == b.episode
  }

  ghost predicate DbOk(db: Db) {
    SectionOk(db.live) && SectionOk(db.movie) && SectionOk(db.series) && EpisodesOk(db.episodes, db.series)
  }
}
