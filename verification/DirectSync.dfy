/**
 * A direct sync from playlist lines to stored rows: the reader, the factory and the replacement
 * together lose nothing.
 */
module DirectSync {
  import opened Wrappers
  import opened FirstOccurrences
  import opened Playlist
  import opened PlaylistLines
  import opened DirectCatalog
  import opened DirectCatalogLaws
  import opened DirectFiling
  import opened CatalogTables
  import opened CatalogDb
  import opened CatalogLaws
  import opened CatalogListing
  import DirectFactory

  // The factory's catalogs are closed

  ghost predicate Numbered(cats: seq<Category>) {
    forall i :: 0 <= i < |cats| ==> cats[i].providerCategoryId == i + 1
  }

  lemma {:induction false} NumberedNames(cats: seq<Category>, k: int)
    requires Numbered(cats) && 1 <= k <= |cats|
    ensures NamedCategory(cats, k) == Some(cats[k - 1].name)
  {
    if k < |cats| {
      NumberedNames(cats[..|cats| - 1], k);
    }
  }

  lemma StreamIsNamed(c: Classifiers, es: seq<Entry>, kind: Kind, i: nat)
    requires i < |es|
    ensures |Streams(c, es, kind)| == |es|
    ensures NamedCategory(Categories(Labels(es, kind)), Streams(c, es, kind)[i].providerCategoryId) == Some(Label(es[i], kind))
  {
    hide Labels, Distinct, NamedCategory, Streams;
    StreamShowsEntry(c, es, kind, i);
    NumberedNames(Categories(Labels(es, kind)), Streams(c, es, kind)[i].providerCategoryId);
  }

  /** The stream a series entry's key stands for. */
  ghost function SeriesFor(ms: seq<Marked>, key: string): Stream
    requires key in Keys(ms)
  {
    SeriesOf(ms, IndexOf(Distinct(Keys(ms)), key)).stream
  }

  ghost predicate KeysDiffer(series: seq<SeriesStream>) {
    forall i, j :: 0 <= i < j < |series| ==> series[i].groupKey != series[j].groupKey
  }

  lemma {:induction false} OnlySeriesWithItsKey(cats: seq<Category>, series: seq<SeriesStream>, i: nat)
    requires KeysDiffer(series) && i < |series|
    requires forall k :: 0 <= k < |series| ==> NamedCategory(cats, series[k].stream.providerCategoryId).Some?
    ensures SeriesNamed(cats, series, series[i].groupKey) == Some(series[i].stream)
  {
    hide NamedCategory;
    if i < |series| - 1 {
      OnlySeriesWithItsKey(cats, series[..|series| - 1], i);
    }
  }

  lemma SeriesAreNamed(ms: seq<Marked>)
    ensures KeysDiffer(SeriesStreams(ms))
    ensures forall k :: 0 <= k < |SeriesStreams(ms)| ==>
              NamedCategory(Categories(SeriesLabels(ms)), SeriesStreams(ms)[k].stream.providerCategoryId).Some?
  {
    hide Distinct, IndexOf, NamedCategory, SeriesLabels;
    DistinctHasNoDuplicates(Keys(ms));
    forall k | 0 <= k < |SeriesStreams(ms)|
      ensures NamedCategory(Categories(SeriesLabels(ms)), SeriesStreams(ms)[k].stream.providerCategoryId).Some?
    {
      SeriesFiledByFirstEntry(ms, k);
      NumberedNames(Categories(SeriesLabels(ms)), SeriesStreams(ms)[k].stream.providerCategoryId);
    }
  }

  lemma KeyFindsItsSeries(ms: seq<Marked>, key: string)
    requires key in Keys(ms)
    ensures SeriesNamed(Categories(SeriesLabels(ms)), SeriesStreams(ms), key) == Some(SeriesFor(ms, key))
  {
    hide Distinct, NamedCategory, SeriesNamed, SeriesLabels, Keys;
    SeriesAreNamed(ms);
    OnlySeriesWithItsKey(Categories(SeriesLabels(ms)), SeriesStreams(ms), IndexOf(Distinct(Keys(ms)), key));
  }

  lemma EpisodeKeyIsKnown(ms: seq<Marked>, j: nat)
    requires j < |Episodes(ms)|
    ensures Episodes(ms)[j].groupKey in Keys(ms)
  {
    hide Distinct, IndexOf;
    assert Distinct(Identities(ms))[j] in Identities(ms);
    var first := IndexOf(Identities(ms), Distinct(Identities(ms))[j]);
    assert Keys(ms)[first] == Episodes(ms)[j].groupKey;
  }

  lemma CatalogEpisodesDiffer(c: Classifiers, parsed: seq<Entry>)
    ensures EpisodesDiffer(CatalogOf(c, parsed).seriesEpisodes)
  {
    hide Episodes, Streams, SeriesStreams, Categories;
    var ms := SelectMarked(c, parsed);
    forall i, j | 0 <= i < j < |Episodes(ms)|
      ensures !SameNumber(Episodes(ms)[i], Episodes(ms)[j])
    {
      EpisodesAreDistinct(ms, i, j);
    }
  }

  // End to end

  ghost function Stored(db: Db, hash: string, c: Classifiers, lines: seq<string>): Db {
    Replaced(db, hash, CatalogOf(c, Entries(lines)))
  }

  /**
   * The live and movie listings of the hash are the playlist's entries of that kind, all of them,
   * in playlist order, each under its own label.
   */
  lemma EntriesAreListed(db: Db, hash: string, c: Classifiers, lines: seq<string>, kind: Kind, i: nat)
    requires DbOk(db) && kind != Series
    ensures var es := Select(c, Entries(lines), kind);
            var listing := Listing(SectionOf(Stored(db, hash, c, lines), kind), hash);
            && |listing| == |es|
            && (i < |es| ==>
                  var e, s := es[i], listing[i].stream;
                  && listing[i].category == Some(Label(e, kind))
                  && s.streamId == i + 1 && s.name == e.displayTitle && s.icon == e.logo
                  && s.extension == c.extension(e.url) && s.data == if kind == Movie then Some(e.url) else None)
  {
    hide Replaced, DbOk, Listing, Expected, NamedCategory, Labels, Categories, Select, Entries, SelectMarked,
         SeriesStreams, Episodes, SeriesLabels, Streams;
    var es := Select(c, Entries(lines), kind);
    var cats, streams := Categories(Labels(es, kind)), Streams(c, es, kind);
    ReplacedLists(db, hash, CatalogOf(c, Entries(lines)), kind);
    StreamsCounted(c, es, kind);
    forall k | 0 <= k < |es|
      ensures NamedCategory(cats, streams[k].providerCategoryId) == Some(Label(es[k], kind))
    {
      StreamIsNamed(c, es, kind, k);
    }
    NothingPassedOver(cats, streams);
    if i < |es| {
      StreamShowsEntry(c, es, kind, i);
    }
  }

  ghost function OwnName(kind: Kind): string {
    match kind
    case Live => "Live"
    case Movie => "Movies"
    case Series => "Series"
  }

  /**
   * Entry `i` of the playlist, a live channel or a movie, is listed for the hash at the number it
   * has among its kind, with its own text, under its group or its section's own name.
   */
  lemma EntryIsStored(db: Db, hash: string, c: Classifiers, lines: seq<string>, kind: Kind, i: nat)
    requires DbOk(db) && kind != Series && i < |Entries(lines)| && IsA(c, Entries(lines)[i], kind)
    ensures var listing := Listing(SectionOf(Stored(db, hash, c, lines), kind), hash);
            var e, r := Entries(lines)[i], Before(c, Entries(lines), i, kind);
            && r < |listing| == Before(c, Entries(lines), |Entries(lines)|, kind)
            && listing[r].category.Some? && IsFiledUnder(e.groupTitle, OwnName(kind), listing[r].category.value)
            && listing[r].stream == Stream(r + 1, e.displayTitle, e.logo, listing[r].stream.providerCategoryId,
                                           c.extension(e.url), if kind == Movie then Some(e.url) else None)
  {
    hide Listing, Stored, Select, Entries, Label, IsFiledUnder, DbOk, Before;
    var parsed := Entries(lines);
    var r := Before(c, parsed, i, kind);
    KindIs(c, parsed[i], kind);
    SelectedBefore(c, parsed, i, kind);
    SelectedBefore(c, parsed, |parsed|, kind);
    assert parsed[..|parsed|] == parsed;
    EntryIsSelected(c, parsed, i);
    EntriesAreListed(db, hash, c, lines, kind, r);
    LabelIsFiled(parsed[i], kind);
  }

  lemma StreamsCounted(c: Classifiers, es: seq<Entry>, kind: Kind)
    ensures |Streams(c, es, kind)| == |es|
  {
  }

  /**
   * The series listing of the hash holds one row for each key a series entry has, in the order of
   * the keys' first entries, with the title, logo and label of that first entry.
   */
  lemma SeriesAreListed(db: Db, hash: string, c: Classifiers, lines: seq<string>, j: nat)
    requires DbOk(db)
    ensures var ms := SelectMarked(c, Entries(lines));
            var keys, listing := Distinct(Keys(ms)), Listing(Stored(db, hash, c, lines).series, hash);
            && |listing| == |keys|
            && (j < |keys| ==>
                  && keys[j] in Keys(ms)
                  && var first, s := ms[IndexOf(Keys(ms), keys[j])], listing[j].stream;
                     && listing[j].category == Some(Label(first.entry, Series))
                     && s.streamId == j + 1 && s.name == SeriesTitle(first.entry, first.marker) && s.icon == first.entry.logo)
  {
    hide Replaced, DbOk, Listing, Expected, NamedCategory, Categories, Select, Entries, SelectMarked,
         Episodes, SeriesLabels, Streams, Distinct, IndexOf, Labels;
    var ms := SelectMarked(c, Entries(lines));
    var cats, series := Categories(SeriesLabels(ms)), SeriesStreams(ms);
    ReplacedLists(db, hash, CatalogOf(c, Entries(lines)), Series);
    SeriesAreNamed(ms);
    forall k | 0 <= k < |series|
      ensures NamedCategory(cats, PlainStreams(series)[k].providerCategoryId).Some?
    {
    }
    NothingPassedOver(cats, PlainStreams(series));
    if j < |series| {
      SeriesFiledByFirstEntry(ms, j);
      var id := series[j].stream.providerCategoryId;
      assert NamedCategory(cats, id) == Some(cats[id - 1].name) by {
        CategoriesNumbered(SeriesLabels(ms));
        NumberedNames(cats, id);
      }
    }
  }

  lemma CategoriesNumbered(labels: seq<string>)
    ensures Numbered(Categories(labels))
  {
    hide Distinct;
  }

  /**
   * The category rows of the hash in a section are the labels of its entries, each once, numbered
   * from 1 in the order of first use.
   */
  lemma CategoriesAreListed(db: Db, hash: string, c: Classifiers, lines: seq<string>, kind: Kind)
    requires DbOk(db)
    ensures var labels := if kind == Series then SeriesLabels(SelectMarked(c, Entries(lines)))
                          else Labels(Select(c, Entries(lines), kind), kind);
            var rows := Rows(SectionOf(Stored(db, hash, c, lines), kind).categories, OwnedCategory(hash));
            && |rows| == |Distinct(labels)|
            && forall i :: 0 <= i < |rows| ==> rows[i] == CategoryRow(i + 1, hash, Distinct(labels)[i])
  {
    hide Replaced, DbOk, Select, Entries, SelectMarked, Episodes, SeriesStreams, SeriesLabels, Labels, Streams, Distinct, Rows;
    ReplacedCategories(db, hash, CatalogOf(c, Entries(lines)), kind);
  }

  /** The episodes of the hash are the catalog's, each under the series of its key. */
  lemma EpisodesAreListed(db: Db, hash: string, c: Classifiers, lines: seq<string>, j: nat)
    requires DbOk(db)
    ensures var ms, r := SelectMarked(c, Entries(lines)), Stored(db, hash, c, lines);
            && |EpisodeRowsOf(r, hash)| == |Episodes(ms)|
            && (j < |Episodes(ms)| ==>
                  var row, e := EpisodeRowsOf(r, hash)[j], Episodes(ms)[j];
                  && e.groupKey in Keys(ms) && row.seriesId in r.series.streams.rows
                  && row == EpisodeRow(row.seriesId, e.season, e.episode, e.title, e.thumbnail, e.url)
                  && ListEpisodeRow(r.series.streams, row)
                       == ListedEpisode(SeriesFor(ms, e.groupKey), e.season, e.episode, e.title, e.thumbnail, e.url))
  {
    hide Replaced, DbOk, SeriesNamed, Categories, Select, Entries, SelectMarked, Labels, Streams,
         SeriesStreams, Episodes, SeriesLabels, Keys, SeriesFor, EpisodeRowsOf;
    var ms, catalog := SelectMarked(c, Entries(lines)), CatalogOf(c, Entries(lines));
    forall k | 0 <= k < |Episodes(ms)|
      ensures Episodes(ms)[k].groupKey in Keys(ms)
      ensures SeriesNamed(catalog.seriesCategories, catalog.seriesStreams, Episodes(ms)[k].groupKey)
           == Some(SeriesFor(ms, Episodes(ms)[k].groupKey))
    {
      EpisodeKeyIsKnown(ms, k);
      KeyFindsItsSeries(ms, Episodes(ms)[k].groupKey);
    }
    ReplacedListsEpisodes(db, hash, catalog);
  }

  /** A rolled back transaction leaves a database that satisfies the schema. */
  lemma SameCatalogOk(a: Db, b: Db)
    requires DbOk(a) && SameCatalog(a, b)
    ensures DbOk(b)
  {
    SameSectionOk(a.live, b.live);
    SameSectionOk(a.movie, b.movie);
    SameSectionOk(a.series, b.series);
  }

  lemma SameSectionOk(s: Section, t: Section)
    requires SectionOk(s) && SameSection(s, t)
    ensures SectionOk(t)
  {
    forall id | id in t.streams.rows
      ensures RefersInside(t, t.streams.rows[id])
    {
      assert RefersInside(s, s.streams.rows[id]);
    }
  }

  /**
   * The sync: what is stored for the hash afterwards is the playlist's catalog, with the sync time
   * and the run's room closed as completed, or all three are what they were before. On a
   * connection that holds only a missing `hash_config` row can stop it.
   */
  method SyncDirect(client: CatalogClient, c: Classifiers, lines: seq<string>, hash: string, roomId: nat, time: string)
      returns (ok: bool, ghost landed: bool)
    modifies client`db, client`lastSyncedAt, client`rooms, client`statementsLeft
    ensures landed ==> client.db == Stored(old(client.db), hash, c, lines)
    ensures landed ==> RunIsClosed(old(client.rooms), roomId, client.rooms)
    ensures landed ==> client.lastSyncedAt ==
                         if hash in client.known then old(client.lastSyncedAt)[hash := time] else old(client.lastSyncedAt)
    ensures !landed ==> SameCatalog(old(client.db), client.db)
    ensures !landed ==> client.rooms == old(client.rooms) && client.lastSyncedAt == old(client.lastSyncedAt)
    ensures ok ==> landed
    ensures landed && !ok ==> client.landsUnanswered
    ensures DbOk(old(client.db)) ==> DbOk(client.db)
    ensures old(client.statementsLeft).None? && DbOk(old(client.db)) && hash in client.known ==> ok
  {
    hide *;
    var parsed := ParseEntries(lines);
    var catalog := DirectFactory.BuildCatalog(c, parsed);
    CatalogEpisodesDiffer(c, parsed);
    ghost var before := client.db;
    ok, landed := client.ReplaceCatalog(hash, catalog, roomId, time);
    assert landed ==> client.db == Stored(before, hash, c, lines) by {
      StoredIs(before, hash, c, lines);
    }
    if DbOk(before) {
      if landed {
        ReplacedKeepsConstraints(before, hash, catalog);
      } else {
        SameCatalogOk(before, client.db);
      }
    }
  }

  lemma StoredIs(db: Db, hash: string, c: Classifiers, lines: seq<string>)
    ensures Stored(db, hash, c, lines) == Replaced(db, hash, CatalogOf(c, Entries(lines)))
  {
  }
}
