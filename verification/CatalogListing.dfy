/** The catalog as a reader sees it: the joins over one hash's rows, in id order. */
module CatalogListing {
  import opened Wrappers
  import opened DirectCatalog
  import opened CatalogTables
  import opened CatalogDb
  import opened CatalogLaws

  // Streams with the name of their category

  datatype Listed = Listed(stream: Stream, category: Option<string>)

  function ListRow(categories: Table<CategoryRow>, r: StreamRow): Listed {
    Listed(r.stream, if r.categoryInternalId in categories.rows then Some(categories.rows[r.categoryInternalId].name) else None)
  }

  function ListRows(categories: Table<CategoryRow>, rows: seq<StreamRow>): seq<Listed> {
    seq(|rows|, i requires 0 <= i < |rows| => ListRow(categories, rows[i]))
  }

  ghost function Owned(hash: string): StreamRow -> bool {
    (r: StreamRow) => r.hash == hash
  }

  ghost function Listing(s: Section, hash: string): seq<Listed> {
    ListRows(s.categories, Rows(s.streams, Owned(hash)))
  }

  /** What the listing should be: the streams whose category is among `cats`, under its name. */
  function Expected(cats: seq<Category>, streams: seq<Stream>): seq<Listed> {
    if streams == [] then []
    else
      var rest, s := Expected(cats, streams[..|streams| - 1]), streams[|streams| - 1];
      var name := NamedCategory(cats, s.providerCategoryId);
      if name.Some? then rest + [Listed(s, name)] else rest
  }

  lemma {:induction false} RowsListAsExpected(t: Table<CategoryRow>, hash: string, cats: seq<Category>, streams: seq<Stream>)
    requires WellFormed(t)
    ensures ListRows(InsertAll(t, CategoryRows(hash, cats)), StreamRows(hash, streams, InternalIds(cats, t.nextId)))
         == Expected(cats, streams)
  {
    hide InsertAll, CategoryRows, InternalIds, NamedCategory;
    if streams != [] {
      var rest, s := streams[..|streams| - 1], streams[|streams| - 1];
      RowsListAsExpected(t, hash, cats, rest);
      NamedByItsId(cats, t.nextId, s.providerCategoryId);
      if s.providerCategoryId in InternalIds(cats, t.nextId) {
        IdNamesItsCategory(t, hash, cats, s.providerCategoryId);
      }
    }
  }

  lemma FilledLists(s: Section, hash: string, cats: seq<Category>, streams: seq<Stream>)
    requires SectionOk(s) && forall id :: id in s.streams.rows ==> s.streams.rows[id].hash != hash
    ensures Listing(Filled(s, hash, cats, streams), hash) == Expected(cats, streams)
  {
    hide InsertAll, CategoryRows, InternalIds, StreamRows, Expected, ListRows;
    var rows := StreamRows(hash, streams, InternalIds(cats, s.categories.nextId));
    forall i | 0 <= i < |rows|
      ensures Owned(hash)(rows[i])
    {
      StreamRowShape(hash, streams, InternalIds(cats, s.categories.nextId), i);
    }
    NoRows(s.streams, Owned(hash), s.streams.nextId);
    RowsAfterInsertAll(s.streams, rows, Owned(hash));
    assert [] + rows == rows;
    RowsListAsExpected(s.categories, hash, cats, streams);
  }

  function CategoriesIn(catalog: Catalog, kind: Kind): seq<Category> {
    match kind
    case Live => catalog.liveCategories
    case Movie => catalog.movieCategories
    case Series => catalog.seriesCategories
  }

  function StreamsIn(catalog: Catalog, kind: Kind): seq<Stream> {
    match kind
    case Live => catalog.liveStreams
    case Movie => catalog.movieStreams
    case Series => PlainStreams(catalog.seriesStreams)
  }

  /** After the replacement the hash's listing is the new catalog's, whatever was stored before. */
  lemma ReplacedLists(db: Db, hash: string, catalog: Catalog, kind: Kind)
    requires DbOk(db)
    ensures Listing(SectionOf(Replaced(db, hash, catalog), kind), hash)
         == Expected(CategoriesIn(catalog, kind), StreamsIn(catalog, kind))
  {
    hide Filled, SectionOk, EpisodesOk, Listing, Expected, EpisodeRows, InsertAll;
    PurgedSectionOk(SectionOf(db, kind), hash);
    FilledLists(WithoutHash(SectionOf(db, kind), hash), hash, CategoriesIn(catalog, kind), StreamsIn(catalog, kind));
  }

  ghost function OwnedCategory(hash: string): CategoryRow -> bool {
    (r: CategoryRow) => r.hash == hash
  }

  lemma FilledCategories(t: Table<CategoryRow>, hash: string, cats: seq<Category>)
    requires WellFormed(t) && forall id :: id in t.rows ==> t.rows[id].hash != hash
    ensures Rows(InsertAll(t, CategoryRows(hash, cats)), OwnedCategory(hash)) == CategoryRows(hash, cats)
  {
    hide InsertAll;
    NoRows(t, OwnedCategory(hash), t.nextId);
    RowsAfterInsertAll(t, CategoryRows(hash, cats), OwnedCategory(hash));
    assert [] + CategoryRows(hash, cats) == CategoryRows(hash, cats);
  }

  /** After the replacement the hash's category rows are the new catalog's categories, in order. */
  lemma ReplacedCategories(db: Db, hash: string, catalog: Catalog, kind: Kind)
    requires DbOk(db)
    ensures Rows(SectionOf(Replaced(db, hash, catalog), kind).categories, OwnedCategory(hash))
         == CategoryRows(hash, CategoriesIn(catalog, kind))
  {
    hide EpisodesOk, EpisodeRows, InsertAll, StreamRows, InternalIds, CategoryRows, Rows;
    FilledCategories(WithoutHash(SectionOf(db, kind), hash).categories, hash, CategoriesIn(catalog, kind));
  }

  /** With every stream's category present nothing is passed over. */
  lemma {:induction false} NothingPassedOver(cats: seq<Category>, streams: seq<Stream>)
    requires forall i :: 0 <= i < |streams| ==> NamedCategory(cats, streams[i].providerCategoryId).Some?
    ensures |Expected(cats, streams)| == |streams|
    ensures forall i :: 0 <= i < |streams| ==>
              Expected(cats, streams)[i] == Listed(streams[i], NamedCategory(cats, streams[i].providerCategoryId))
  {
    hide NamedCategory;
    if streams != [] {
      NothingPassedOver(cats, streams[..|streams| - 1]);
    }
  }

  // Episodes with their series

  datatype ListedEpisode = ListedEpisode(
    series: Stream, season: nat, episode: nat, title: string, thumbnail: Option<string>, url: string)

  function ListEpisodeRow(series: Table<StreamRow>, r: EpisodeRow): ListedEpisode
    requires r.seriesId in series.rows
  {
    ListedEpisode(series.rows[r.seriesId].stream, r.season, r.episode, r.title, r.thumbnail, r.url)
  }

  ghost function OwnedEpisode(db: Db, hash: string): EpisodeRow -> bool {
    (r: EpisodeRow) => OfHash(db, r, hash)
  }

  ghost function EpisodeRowsOf(db: Db, hash: string): seq<EpisodeRow> {
    Rows(db.episodes, OwnedEpisode(db, hash))
  }

  /** The series stored for a group key: the last one with that key and a known category. */
  function SeriesNamed(cats: seq<Category>, series: seq<SeriesStream>, key: string): Option<Stream> {
    if series == [] then None
    else
      var s := series[|series| - 1];
      if s.groupKey == key && NamedCategory(cats, s.stream.providerCategoryId).Some? then Some(s.stream)
      else SeriesNamed(cats, series[..|series| - 1], key)
  }

  lemma {:induction false} IdNamesItsSeries(hash: string, cats: seq<Category>, base: nat, series: seq<SeriesStream>,
                                            base': nat, key: string)
    ensures var ids := InternalIds(cats, base);
            key in SeriesIds(series, ids, base') <==> SeriesNamed(cats, series, key).Some?
    ensures var ids := InternalIds(cats, base);
            var rows := StreamRows(hash, PlainStreams(series), ids);
            key in SeriesIds(series, ids, base') ==>
              var i := SeriesIds(series, ids, base')[key] - base';
              0 <= i < |rows| && SeriesNamed(cats, series, key) == Some(rows[i].stream)
  {
    hide NamedCategory, InternalIds;
    if series != [] {
      var n, ids := |series| - 1, InternalIds(cats, base);
      assert series[..n + 1] == series;
      SeriesIdsStep(hash, series, n, ids, base');
      IdNamesItsSeries(hash, cats, base, series[..n], base', key);
      NamedByItsId(cats, base, series[n].stream.providerCategoryId);
    }
  }

  /** The row an episode became refers to the series row of its group key. */
  lemma EpisodeRefersToItsSeries(db: Db, hash: string, catalog: Catalog, key: string)
    requires DbOk(db) && SeriesNamed(catalog.seriesCategories, catalog.seriesStreams, key).Some?
    ensures key in SeriesIdsIn(db, catalog)
    ensures var id, rows := SeriesIdsIn(db, catalog)[key], Replaced(db, hash, catalog).series.streams.rows;
            id in rows && rows[id].stream == SeriesNamed(catalog.seriesCategories, catalog.seriesStreams, key).value
  {
    hide InternalIds, SeriesIds, SeriesNamed, StreamRows, InsertAll, EpisodeRows;
    var ids := InternalIds(catalog.seriesCategories, db.series.categories.nextId);
    var rows := StreamRows(hash, PlainStreams(catalog.seriesStreams), ids);
    IdNamesItsSeries(hash, catalog.seriesCategories, db.series.categories.nextId, catalog.seriesStreams,
                     db.series.streams.nextId, key);
    InsertAllIds(Purged(db, hash).series.streams, rows, SeriesIdsIn(db, catalog)[key]);
  }

  lemma {:induction false} AllEpisodesPlaced(episodes: seq<Episode>, seriesIds: map<string, nat>)
    requires forall i :: 0 <= i < |episodes| ==> episodes[i].groupKey in seriesIds
    ensures |EpisodeRows(episodes, seriesIds)| == |episodes|
    ensures forall i :: 0 <= i < |episodes| ==> EpisodeRows(episodes, seriesIds)[i] == RowOf(episodes[i], seriesIds)
  {
    if episodes == [] {
    } else {
      AllEpisodesPlaced(episodes[..|episodes| - 1], seriesIds);
    }
  }

  lemma EpisodeRowsAreNew(db: Db, hash: string, catalog: Catalog)
    requires DbOk(db)
    ensures EpisodeRowsOf(Replaced(db, hash, catalog), hash)
         == EpisodeRows(catalog.seriesEpisodes, SeriesIdsIn(db, catalog))
  {
    hide InsertAll, EpisodeRows, SeriesIdsIn, Filled, SectionOk;
    var p, r := Purged(db, hash), Replaced(db, hash, catalog);
    var rows := EpisodeRows(catalog.seriesEpisodes, SeriesIdsIn(db, catalog));
    var keep := OwnedEpisode(r, hash);
    forall i | 0 <= i < |rows|
      ensures keep(rows[i])
    {
      NewEpisodeIsOwn(db, hash, catalog, i);
    }
    forall id | id in p.episodes.rows
      ensures !keep(p.episodes.rows[id])
    {
      OldEpisodeIsNotOwn(db, hash, catalog, id);
    }
    NoRows(p.episodes, keep, p.episodes.nextId);
    RowsAfterInsertAll(p.episodes, rows, keep);
    assert [] + rows == rows;
  }

  lemma OldEpisodeIsNotOwn(db: Db, hash: string, catalog: Catalog, id: nat)
    requires DbOk(db) && id in Purged(db, hash).episodes.rows
    ensures !OfHash(Replaced(db, hash, catalog), Purged(db, hash).episodes.rows[id], hash)
  {
    hide InsertAll, StreamRows, InternalIds, EpisodeRows;
    var p := Purged(db, hash);
    InsertAllIds(p.series.streams,
                 StreamRows(hash, PlainStreams(catalog.seriesStreams),
                            InternalIds(catalog.seriesCategories, p.series.categories.nextId)),
                 p.episodes.rows[id].seriesId);
  }

  /** After the replacement the hash's episodes are the new catalog's, each under the series of its group key. */
  lemma ReplacedListsEpisodes(db: Db, hash: string, catalog: Catalog)
    requires DbOk(db)
    requires forall i :: 0 <= i < |catalog.seriesEpisodes| ==>
               SeriesNamed(catalog.seriesCategories, catalog.seriesStreams, catalog.seriesEpisodes[i].groupKey).Some?
    ensures var r := Replaced(db, hash, catalog);
            && |EpisodeRowsOf(r, hash)| == |catalog.seriesEpisodes|
            && forall i :: 0 <= i < |catalog.seriesEpisodes| ==>
                 var row, e := EpisodeRowsOf(r, hash)[i], catalog.seriesEpisodes[i];
                 && row.seriesId in r.series.streams.rows
                 && ListEpisodeRow(r.series.streams, row) == ListedEpisode(
                      SeriesNamed(catalog.seriesCategories, catalog.seriesStreams, e.groupKey).value,
                      e.season, e.episode, e.title, e.thumbnail, e.url)
  {
    hide InsertAll, EpisodeRows, SeriesIdsIn, Filled, SectionOk, SeriesNamed, Replaced, DbOk, EpisodeRowsOf;
    EpisodeRowsAreNew(db, hash, catalog);
    forall i | 0 <= i < |catalog.seriesEpisodes|
      ensures catalog.seriesEpisodes[i].groupKey in SeriesIdsIn(db, catalog)
    {
      EpisodeRefersToItsSeries(db, hash, catalog, catalog.seriesEpisodes[i].groupKey);
    }
    AllEpisodesPlaced(catalog.seriesEpisodes, SeriesIdsIn(db, catalog));
    forall i | 0 <= i < |catalog.seriesEpisodes|
      ensures var id, rows := SeriesIdsIn(db, catalog)[catalog.seriesEpisodes[i].groupKey],
                              Replaced(db, hash, catalog).series.streams.rows;
              id in rows && rows[id].stream
                == SeriesNamed(catalog.seriesCategories, catalog.seriesStreams, catalog.seriesEpisodes[i].groupKey).value
    {
      EpisodeRefersToItsSeries(db, hash, catalog, catalog.seriesEpisodes[i].groupKey);
    }
  }
}
