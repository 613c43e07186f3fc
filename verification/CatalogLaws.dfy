/**
 * What a replaced catalog is to its readers: every constraint of the schema holds, other hashes
 * are untouched, and the joins over the hash's rows give back the formatted catalog.
 */
module CatalogLaws {
  import opened Wrappers
  import opened DirectCatalog
  import opened CatalogTables
  import opened CatalogDb

  // Constraints

  lemma PurgedSectionOk(s: Section, hash: string)
    requires SectionOk(s)
    ensures SectionOk(WithoutHash(s, hash))
  {
    var left := WithoutHash(s, hash);
    forall id | id in left.streams.rows
      ensures RefersInside(left, left.streams.rows[id])
    {
      assert RefersInside(s, s.streams.rows[id]);
    }
  }

  /** A row id in the map is a category row of the hash with that provider id. */
  lemma IdNamesItsCategory(t: Table<CategoryRow>, hash: string, cats: seq<Category>, k: int)
    requires WellFormed(t) && k in InternalIds(cats, t.nextId)
    ensures var u, id := InsertAll(t, CategoryRows(hash, cats)), InternalIds(cats, t.nextId)[k];
            NamedCategory(cats, k).Some? && id in u.rows && u.rows[id] == CategoryRow(k, hash, NamedCategory(cats, k).value)
  {
    InternalIdsRange(cats, t.nextId, k);
    InsertAllIds(t, CategoryRows(hash, cats), InternalIds(cats, t.nextId)[k]);
    NamedByItsId(cats, t.nextId, k);
  }

  /** The name the last category with the provider id has. */
  function NamedCategory(cats: seq<Category>, k: int): Option<string> {
    if cats == [] then None
    else if cats[|cats| - 1].providerCategoryId == k then Some(cats[|cats| - 1].name)
    else NamedCategory(cats[..|cats| - 1], k)
  }

  lemma {:induction false} NamedByItsId(cats: seq<Category>, base: nat, k: int)
    ensures k in InternalIds(cats, base) <==> NamedCategory(cats, k).Some?
    ensures k in InternalIds(cats, base) ==>
              var i := InternalIds(cats, base)[k] - base;
              0 <= i < |cats| && cats[i].providerCategoryId == k && NamedCategory(cats, k) == Some(cats[i].name)
  {
    if cats == [] {
    } else {
      NamedByItsId(cats[..|cats| - 1], base, k);
    }
  }

  lemma {:induction false} StreamRowShape(hash: string, streams: seq<Stream>, ids: map<int, nat>, i: nat)
    requires i < |StreamRows(hash, streams, ids)|
    ensures var r := StreamRows(hash, streams, ids)[i];
            && r.hash == hash && r.stream.providerCategoryId in ids
            && r.categoryInternalId == ids[r.stream.providerCategoryId]
  {
    var rest := StreamRows(hash, streams[..|streams| - 1], ids);
    if i < |rest| {
      StreamRowShape(hash, streams[..|streams| - 1], ids, i);
    }
  }

  lemma OldRowsReferInside(s: Section, hash: string, cats: seq<Category>, streams: seq<Stream>, id: nat)
    requires SectionOk(s) && id in s.streams.rows
    ensures RefersInside(Filled(s, hash, cats, streams), s.streams.rows[id])
  {
    var r := s.streams.rows[id];
    assert RefersInside(s, r);
    InsertAllIds(s.categories, CategoryRows(hash, cats), r.categoryInternalId);
  }

  lemma NewRowsReferInside(s: Section, hash: string, cats: seq<Category>, streams: seq<Stream>, i: nat)
    requires SectionOk(s) && i < |StreamRows(hash, streams, InternalIds(cats, s.categories.nextId))|
    ensures RefersInside(Filled(s, hash, cats, streams), StreamRows(hash, streams, InternalIds(cats, s.categories.nextId))[i])
  {
    var ids := InternalIds(cats, s.categories.nextId);
    StreamRowShape(hash, streams, ids, i);
    IdNamesItsCategory(s.categories, hash, cats, StreamRows(hash, streams, ids)[i].stream.providerCategoryId);
  }

  lemma FilledSectionOk(s: Section, hash: string, cats: seq<Category>, streams: seq<Stream>)
    requires SectionOk(s)
    ensures SectionOk(Filled(s, hash, cats, streams))
  {
    hide InsertAll, StreamRows, CategoryRows, InternalIds;
    var ids := InternalIds(cats, s.categories.nextId);
    var rows := StreamRows(hash, streams, ids);
    var f := Filled(s, hash, cats, streams);
    InsertAllWellFormed(s.categories, CategoryRows(hash, cats));
    InsertAllWellFormed(s.streams, rows);
    forall id | id in f.streams.rows
      ensures RefersInside(f, f.streams.rows[id])
    {
      InsertAllIds(s.streams, rows, id);
      if id in s.streams.rows {
        OldRowsReferInside(s, hash, cats, streams, id);
      } else {
        NewRowsReferInside(s, hash, cats, streams, id - s.streams.nextId);
      }
    }
  }

  lemma {:induction false} EpisodeRowShape(episodes: seq<Episode>, seriesIds: map<string, nat>, i: nat)
    requires i < |EpisodeRows(episodes, seriesIds)|
    ensures exists k :: k in seriesIds && seriesIds[k] == EpisodeRows(episodes, seriesIds)[i].seriesId
  {
    var j := RowComesFrom(episodes, seriesIds, i);
    assert episodes[j].groupKey in seriesIds;
  }

  lemma FilledEpisodesOk(t: Table<EpisodeRow>, rows: seq<EpisodeRow>, series: Section)
    requires EpisodesOk(t, series) && EpisodesFit(t, rows)
    requires forall i :: 0 <= i < |rows| ==> rows[i].seriesId in series.streams.rows
    ensures EpisodesOk(InsertAll(t, rows), series)
  {
    hide InsertAll;
    var u := InsertAll(t, rows);
    InsertAllWellFormed(t, rows);
    forall id | id in u.rows
      ensures u.rows[id].seriesId in series.streams.rows
    {
      InsertAllIds(t, rows, id);
    }
    forall i, j | i in u.rows && j in u.rows && SameEpisode(u.rows[i], u.rows[j])
      ensures i == j
    {
      InsertAllIds(t, rows, i);
      InsertAllIds(t, rows, j);
    }
  }

  lemma SeriesStay(series: Section, hash: string, cats: seq<Category>, streams: seq<Stream>, id: nat)
    requires WellFormed(series.streams) && id in series.streams.rows
    ensures id in Filled(series, hash, cats, streams).streams.rows
  {
    InsertAllIds(series.streams, StreamRows(hash, streams, InternalIds(cats, series.categories.nextId)), id);
  }

  lemma ReplacedEpisodesOk(db: Db, hash: string, catalog: Catalog)
    requires DbOk(db) && EpisodesDiffer(catalog.seriesEpisodes)
    ensures EpisodesOk(Replaced(db, hash, catalog).episodes, Replaced(db, hash, catalog).series)
  {
    hide EpisodesFit, InsertAll, StreamRows, InternalIds, SeriesIds, EpisodeRows, EpisodesDiffer, SectionOk;
    var p, r := Purged(db, hash), Replaced(db, hash, catalog);
    var ids := InternalIds(catalog.seriesCategories, db.series.categories.nextId);
    var seriesIds := SeriesIdsIn(db, catalog);
    var rows := EpisodeRows(catalog.seriesEpisodes, seriesIds);
    PurgedFits(db, hash, catalog);
    assert EpisodesFit(p.episodes, rows);
    SeriesIdsStored(p, hash, catalog.seriesCategories, catalog.seriesStreams);
    forall i | 0 <= i < |rows|
      ensures rows[i].seriesId in r.series.streams.rows
    {
      EpisodeRowShape(catalog.seriesEpisodes, seriesIds, i);
    }
    EpisodesStay(db, hash, catalog);
    FilledEpisodesOk(p.episodes, rows, r.series);
  }

  lemma EpisodesStay(db: Db, hash: string, catalog: Catalog)
    requires DbOk(db)
    ensures EpisodesOk(Purged(db, hash).episodes, Replaced(db, hash, catalog).series)
  {
    hide InsertAll, StreamRows, InternalIds, SeriesIds, EpisodeRows;
    var p := Purged(db, hash);
    forall id | id in p.episodes.rows
      ensures p.episodes.rows[id].seriesId in Replaced(db, hash, catalog).series.streams.rows
    {
      SeriesStay(p.series, hash, catalog.seriesCategories, PlainStreams(catalog.seriesStreams), p.episodes.rows[id].seriesId);
    }
  }

  /** The replacement breaks no foreign key and no unique key, in any section. */
  lemma ReplacedKeepsConstraints(db: Db, hash: string, catalog: Catalog)
    requires DbOk(db) && EpisodesDiffer(catalog.seriesEpisodes)
    ensures DbOk(Replaced(db, hash, catalog))
  {
    hide EpisodesDiffer, SectionOk, EpisodesOk, Filled, WithoutHash, WithoutOrphans, EpisodeRows, InsertAll;
    PurgedSectionOk(db.live, hash);
    PurgedSectionOk(db.movie, hash);
    PurgedSectionOk(db.series, hash);
    FilledSectionOk(Purged(db, hash).live, hash, catalog.liveCategories, catalog.liveStreams);
    FilledSectionOk(Purged(db, hash).movie, hash, catalog.movieCategories, catalog.movieStreams);
    FilledSectionOk(Purged(db, hash).series, hash, catalog.seriesCategories, PlainStreams(catalog.seriesStreams));
    ReplacedEpisodesOk(db, hash, catalog);
  }

  // Other hashes

  /** The rows of a hash, under their ids. */
  ghost function CategoriesUnder(s: Section, hash: string): map<nat, CategoryRow> {
    map id | id in s.categories.rows && s.categories.rows[id].hash == hash :: s.categories.rows[id]
  }

  ghost function StreamsUnder(s: Section, hash: string): map<nat, StreamRow> {
    map id | id in s.streams.rows && s.streams.rows[id].hash == hash :: s.streams.rows[id]
  }

  ghost function EpisodesUnder(db: Db, hash: string): map<nat, EpisodeRow> {
    map id | id in db.episodes.rows && OfHash(db, db.episodes.rows[id], hash) :: db.episodes.rows[id]
  }

  predicate OfHash(db: Db, r: EpisodeRow, hash: string) {
    r.seriesId in db.series.streams.rows && db.series.streams.rows[r.seriesId].hash == hash
  }

  lemma OtherSectionRowsStay(s: Section, hash: string, cats: seq<Category>, streams: seq<Stream>, other: string)
    requires SectionOk(s) && other != hash
    ensures CategoriesUnder(Filled(WithoutHash(s, hash), hash, cats, streams), other) == CategoriesUnder(s, other)
    ensures StreamsUnder(Filled(WithoutHash(s, hash), hash, cats, streams), other) == StreamsUnder(s, other)
  {
    hide InsertAll, StreamRows, InternalIds;
    var p := WithoutHash(s, hash);
    var f := Filled(p, hash, cats, streams);
    var rows := StreamRows(hash, streams, InternalIds(cats, p.categories.nextId));
    forall id: nat
      ensures id in CategoriesUnder(f, other) <==> id in CategoriesUnder(s, other)
      ensures id in CategoriesUnder(s, other) ==> CategoriesUnder(f, other)[id] == CategoriesUnder(s, other)[id]
    {
      InsertAllIds(p.categories, CategoryRows(hash, cats), id);
    }
    forall id: nat
      ensures id in StreamsUnder(f, other) <==> id in StreamsUnder(s, other)
      ensures id in StreamsUnder(s, other) ==> StreamsUnder(f, other)[id] == StreamsUnder(s, other)[id]
    {
      InsertAllIds(p.streams, rows, id);
      if p.streams.nextId <= id < p.streams.nextId + |rows| {
        StreamRowShape(hash, streams, InternalIds(cats, p.categories.nextId), id - p.streams.nextId);
      }
    }
  }

  lemma OtherSections(db: Db, hash: string, catalog: Catalog, other: string, kind: Kind)
    requires DbOk(db) && other != hash
    ensures CategoriesUnder(SectionOf(Replaced(db, hash, catalog), kind), other) == CategoriesUnder(SectionOf(db, kind), other)
    ensures StreamsUnder(SectionOf(Replaced(db, hash, catalog), kind), other) == StreamsUnder(SectionOf(db, kind), other)
  {
    hide Filled, WithoutHash, SectionOk, EpisodesOk, CategoriesUnder, StreamsUnder, WithoutOrphans, EpisodeRows, InsertAll;
    match kind
    case Live => OtherSectionRowsStay(db.live, hash, catalog.liveCategories, catalog.liveStreams, other);
    case Movie => OtherSectionRowsStay(db.movie, hash, catalog.movieCategories, catalog.movieStreams, other);
    case Series =>
      OtherSectionRowsStay(db.series, hash, catalog.seriesCategories, PlainStreams(catalog.seriesStreams), other);
  }

  lemma OtherEpisodes(db: Db, hash: string, catalog: Catalog, other: string)
    requires DbOk(db) && other != hash
    ensures EpisodesUnder(Replaced(db, hash, catalog), other) == EpisodesUnder(db, other)
  {
    hide InsertAll, StreamRows, InternalIds, SeriesIds, EpisodeRows, Filled, SectionOk;
    var p, r := Purged(db, hash), Replaced(db, hash, catalog);
    var rows := EpisodeRows(catalog.seriesEpisodes, SeriesIdsIn(db, catalog));
    OtherSections(db, hash, catalog, other, Series);
    forall id: nat
      ensures id in EpisodesUnder(r, other) <==> id in EpisodesUnder(db, other)
      ensures id in EpisodesUnder(db, other) ==> EpisodesUnder(r, other)[id] == EpisodesUnder(db, other)[id]
    {
      InsertAllIds(p.episodes, rows, id);
      if p.episodes.nextId <= id < p.episodes.nextId + |rows| {
        NewEpisodeIsOwn(db, hash, catalog, id - p.episodes.nextId);
      } else if id in db.episodes.rows {
        SameOwner(db, r, db.episodes.rows[id], other);
      }
    }
  }

  lemma SameOwner(db: Db, r: Db, row: EpisodeRow, other: string)
    requires StreamsUnder(r.series, other) == StreamsUnder(db.series, other)
    ensures OfHash(r, row, other) <==> OfHash(db, row, other)
  {
    assert OfHash(r, row, other) <==> row.seriesId in StreamsUnder(r.series, other);
    assert OfHash(db, row, other) <==> row.seriesId in StreamsUnder(db.series, other);
  }

  lemma NewEpisodeIsOwn(db: Db, hash: string, catalog: Catalog, i: nat)
    requires DbOk(db) && i < |EpisodeRows(catalog.seriesEpisodes, SeriesIdsIn(db, catalog))|
    ensures OfHash(Replaced(db, hash, catalog), EpisodeRows(catalog.seriesEpisodes, SeriesIdsIn(db, catalog))[i], hash)
  {
    hide InsertAll, StreamRows, InternalIds, SeriesIds, EpisodeRows;
    var p := Purged(db, hash);
    var ids := InternalIds(catalog.seriesCategories, db.series.categories.nextId);
    var seriesIds := SeriesIdsIn(db, catalog);
    EpisodeRowShape(catalog.seriesEpisodes, seriesIds, i);
    var k :| k in seriesIds && seriesIds[k] == EpisodeRows(catalog.seriesEpisodes, seriesIds)[i].seriesId;
    SeriesIdsRange(hash, catalog.seriesStreams, ids, db.series.streams.nextId, k);
    var rows := StreamRows(hash, PlainStreams(catalog.seriesStreams), ids);
    InsertAllIds(p.series.streams, rows, seriesIds[k]);
    StreamRowShape(hash, PlainStreams(catalog.seriesStreams), ids, seriesIds[k] - db.series.streams.nextId);
  }

  /** Nothing stored for another hash changes: same ids, same rows, in every table. */
  lemma OtherHashesUntouched(db: Db, hash: string, catalog: Catalog, other: string)
    requires DbOk(db) && other != hash
    ensures forall kind :: CategoriesUnder(SectionOf(Replaced(db, hash, catalog), kind), other)
                        == CategoriesUnder(SectionOf(db, kind), other)
    ensures forall kind :: StreamsUnder(SectionOf(Replaced(db, hash, catalog), kind), other)
                        == StreamsUnder(SectionOf(db, kind), other)
    ensures EpisodesUnder(Replaced(db, hash, catalog), other) == EpisodesUnder(db, other)
  {
    hide *;
    forall kind: Kind
      ensures CategoriesUnder(SectionOf(Replaced(db, hash, catalog), kind), other) == CategoriesUnder(SectionOf(db, kind), other)
      ensures StreamsUnder(SectionOf(Replaced(db, hash, catalog), kind), other) == StreamsUnder(SectionOf(db, kind), other)
    {
      OtherSections(db, hash, catalog, other, kind);
    }
    OtherEpisodes(db, hash, catalog, other);
  }
}
